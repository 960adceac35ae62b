/**
 Searching a tenant's collection against searching the reference store: the same
 scores, best first, and only records of that tenant and module.
 */
module TenantSearch {
  import opened Wrappers
  import opened Domain
  import opened Ranking
  import opened MilvusProvider
  import opened TenantVectors
  import opened TenantRefinement
  import I = InMemoryVectors

  /* ---------- the hits that match, before they become chunks ---------- */

  function Kept(hits: seq<SearchHit>, m: Option<string>): seq<SearchHit> {
    if hits == [] then []
    else
      var last := hits[|hits| - 1];
      var before := Kept(hits[..|hits| - 1], m);
      if Matches(last, m) then before + [last] else before
  }

  function IdsOf(hits: seq<SearchHit>): seq<string> {
    seq(|hits|, i requires 0 <= i < |hits| => hits[i].recordId)
  }

  lemma {:induction false} KeptBecomeChunks(hits: seq<SearchHit>, m: Option<string>)
    ensures |Matching(hits, m)| == |Kept(hits, m)|
    ensures forall i :: 0 <= i < |Kept(hits, m)| ==> Matching(hits, m)[i] == ToChunk(Kept(hits, m)[i])
  {
    hide ToChunk, Matches;
    if hits != [] {
      KeptBecomeChunks(hits[..|hits| - 1], m);
    }
  }

  lemma {:induction false} KeptMembers(hits: seq<SearchHit>, m: Option<string>)
    ensures forall h :: h in Kept(hits, m) <==> h in hits && Matches(h, m)
  {
    hide Matches;
    if hits != [] {
      KeptMembers(hits[..|hits| - 1], m);
      assert hits == hits[..|hits| - 1] + [hits[|hits| - 1]];
    }
  }

  /** Distinct ids, best first. */
  predicate InOrder(hits: seq<SearchHit>) {
    forall i, j :: 0 <= i < j < |hits| ==> hits[i].recordId != hits[j].recordId && hits[i].score >= hits[j].score
  }

  lemma {:induction false} KeptInOrder(hits: seq<SearchHit>, m: Option<string>)
    requires InOrder(hits)
    ensures InOrder(Kept(hits, m))
  {
    hide Matches;
    if hits != [] {
      var before := hits[..|hits| - 1];
      KeptInOrder(before, m);
      KeptMembers(before, m);
      hide Kept;
      forall h | h in Kept(before, m)
        ensures h.recordId != hits[|hits| - 1].recordId && h.score >= hits[|hits| - 1].score
      {
        assert h in before;
      }
    }
  }

  /* ---------- hits and records ---------- */

  /** What the store reads back for a module: an empty name is no module. */
  function Normal(m: Option<string>): Option<string> {
    if m == Some("") then None else m
  }

  /** The chunk that is found for record `r`. */
  function ChunkOf(similarity: I.Similarity, query: Vector, r: VectorRecord): ScoredChunk {
    ScoredChunk(r.chunkId, r.content, similarity(query, r.embedding), r.asset, Normal(r.erpModule))
  }

  /** The hit that record `r` must produce. */
  predicate Hits(h: SearchHit, r: VectorRecord, score: real) {
    && h.recordId == r.chunkId && h.score == score
    && ToChunk(h) == ScoredChunk(r.chunkId, r.content, score, r.asset, Normal(r.erpModule))
  }

  /** The score of the record with this id, in the reference store. */
  function Score(similarity: I.Similarity, m: map<VectorKey, VectorRecord>, query: Vector, t: string,
                 id: string): real
  {
    if VectorKey(t, id) in m then similarity(query, m[VectorKey(t, id)].embedding) else 0.0
  }

  predicate HitsIn(h: SearchHit, similarity: I.Similarity, m: map<VectorKey, VectorRecord>, query: Vector, t: string) {
    && VectorKey(t, h.recordId) in m
    && Hits(h, m[VectorKey(t, h.recordId)], Score(similarity, m, query, t, h.recordId))
  }

  ghost predicate Keyed(m: map<VectorKey, VectorRecord>) {
    forall k :: k in m ==> I.KeyOf(m[k]) == k
  }

  /** Every hit of the collection is the hit of one of the tenant's records, and every
      record of the tenant is hit. */
  lemma HitsAreRecords(similarity: I.Similarity, json: Json, index: Index, rows: Rows,
                       m: map<VectorKey, VectorRecord>, t: string, query: Vector)
    requires IsIndex(index, similarity) && RoundTrips(json) && ShowsChunks(json, rows, m, t) && Keyed(m)
    ensures var hits := HitsOf(json, rows, index(rows, query));
            && InOrder(hits)
            && (forall h :: h in hits ==> HitsIn(h, similarity, m, query, t))
            && (forall id :: VectorKey(t, id) in m ==> id in IdsOf(hits))
  {
    var ranked := index(rows, query);
    var hits := HitsOf(json, rows, ranked);
    forall i | 0 <= i < |hits|
      ensures hits[i].recordId == ranked[i].id && hits[i].score == ranked[i].score
      ensures HitsIn(hits[i], similarity, m, query, t)
    {
      HitAt(similarity, json, index, rows, m, t, query, i);
    }
    assert forall i, j :: 0 <= i < j < |ranked| ==>
        ranked[i].id != ranked[j].id && ranked[i].score >= ranked[j].score;
    assert forall id :: VectorKey(t, id) in m ==> exists i :: 0 <= i < |ranked| && ranked[i].id == id;
    assert |hits| == |ranked|;
    hide *;
    HitsInOrder(ranked, hits);
    forall id | VectorKey(t, id) in m ensures id in IdsOf(hits) {
      var i :| 0 <= i < |ranked| && ranked[i].id == id;
      IdAt(hits, i);
    }
  }

  lemma HitsInOrder(ranked: seq<RankedId>, hits: seq<SearchHit>)
    requires |hits| == |ranked|
    requires forall i :: 0 <= i < |hits| ==> hits[i].recordId == ranked[i].id && hits[i].score == ranked[i].score
    requires forall i, j :: 0 <= i < j < |ranked| ==> ranked[i].id != ranked[j].id && ranked[i].score >= ranked[j].score
    ensures InOrder(hits)
  {
  }

  lemma IdAt(hits: seq<SearchHit>, i: nat)
    requires i < |hits|
    ensures hits[i].recordId in IdsOf(hits)
  {
    assert IdsOf(hits)[i] == hits[i].recordId;
  }

  lemma HitAt(similarity: I.Similarity, json: Json, index: Index, rows: Rows,
              m: map<VectorKey, VectorRecord>, t: string, query: Vector, i: nat)
    requires IsIndex(index, similarity) && RoundTrips(json) && ShowsChunks(json, rows, m, t) && Keyed(m)
    requires i < |index(rows, query)|
    ensures var r := index(rows, query)[i];
            var h := HitsOf(json, rows, index(rows, query))[i];
            h.recordId == r.id && h.score == r.score && HitsIn(h, similarity, m, query, t)
  {
  }

  /* ---------- both searches score the same records ---------- */

  ghost predicate UniqueKeys(vs: seq<VectorRecord>) {
    forall i, j :: 0 <= i < j < |vs| ==> I.KeyOf(vs[i]) != I.KeyOf(vs[j])
  }

  function ChunkIds(rs: seq<VectorRecord>): seq<string> {
    seq(|rs|, i requires 0 <= i < |rs| => rs[i].chunkId)
  }

  lemma {:induction false} CandidateMembers(vs: seq<VectorRecord>, t: string, m: Option<string>)
    requires UniqueKeys(vs)
    ensures forall r :: r in I.Candidates(vs, t, m) <==> r in vs && I.Wanted(r, t, m)
    ensures Distinct(ChunkIds(I.Candidates(vs, t, m)))
    decreases |vs|
  {
    hide I.Wanted;
    if vs != [] {
      CandidateMembers(vs[1..], t, m);
      assert forall r :: r in vs <==> r == vs[0] || r in vs[1..];
      if I.Wanted(vs[0], t, m) {
        FirstIdIsNew(vs, t, m);
        assert ChunkIds(I.Candidates(vs, t, m)) == [vs[0].chunkId] + ChunkIds(I.Candidates(vs[1..], t, m));
      }
    }
  }

  lemma FirstIdIsNew(vs: seq<VectorRecord>, t: string, m: Option<string>)
    requires UniqueKeys(vs) && vs != [] && I.Wanted(vs[0], t, m)
    ensures vs[0].chunkId !in ChunkIds(I.Candidates(vs[1..], t, m))
  {
    var found := I.Candidates(vs[1..], t, m);
    I.CandidatesAreWanted(vs[1..], t, m);
    I.CandidatesAreMembers(vs[1..], t, m);
    hide I.Candidates;
    forall i | 0 <= i < |found| ensures found[i].chunkId != vs[0].chunkId {
      assert found[i] in found;
      assert found[i].tenant == t;
      var j :| 0 <= j < |vs[1..]| && vs[1..][j] == found[i];
      assert I.KeyOf(vs[0]) != I.KeyOf(vs[1 + j]);
    }
  }

  /** With distinct keys, looking a record up by key finds it. */
  lemma {:induction false} ByKeyFinds(vs: seq<VectorRecord>)
    requires UniqueKeys(vs)
    ensures forall r :: r in vs ==> I.KeyOf(r) in I.ByKey(vs) && I.ByKey(vs)[I.KeyOf(r)] == r
  {
    if vs != [] {
      ByKeyFinds(vs[..|vs| - 1]);
      assert vs == vs[..|vs| - 1] + [vs[|vs| - 1]];
    }
  }

  /** The premises of the comparison: an exact index over the collection, and the
      collection showing the reference's records. */
  ghost predicate Comparable(similarity: I.Similarity, json: Json, index: Index, rows: Rows,
                             vs: seq<VectorRecord>, t: string) {
    && IsIndex(index, similarity) && RoundTrips(json)
    && ShowsChunks(json, rows, I.ByKey(vs), t) && UniqueKeys(vs)
  }

  lemma ModulesAgree(similarity: I.Similarity, h: SearchHit, byKey: map<VectorKey, VectorRecord>,
                     query: Vector, t: string, m: Option<string>)
    requires HitsIn(h, similarity, byKey, query, t) && Keyed(byKey) && m != Some("")
    ensures Matches(h, m) <==> I.Wanted(byKey[VectorKey(t, h.recordId)], t, m)
  {
  }

  /** The matching hits and the candidates of the reference have the same ids. */
  lemma SameIds(similarity: I.Similarity, json: Json, index: Index, rows: Rows, vs: seq<VectorRecord>,
                t: string, query: Vector, m: Option<string>)
    requires Comparable(similarity, json, index, rows, vs, t) && m != Some("")
    ensures var kept := Kept(HitsOf(json, rows, index(rows, query)), m);
            multiset(IdsOf(kept)) == multiset(ChunkIds(I.Candidates(vs, t, m)))
  {
    var byKey, hits := I.ByKey(vs), HitsOf(json, rows, index(rows, query));
    var kept, found := Kept(hits, m), I.Candidates(vs, t, m);
    I.ByKeyMembers(vs);
    ByKeyFinds(vs);
    HitsAreRecords(similarity, json, index, rows, byKey, t, query);
    KeptMembers(hits, m);
    KeptInOrder(hits, m);
    CandidateMembers(vs, t, m);
    hide HitsIn, HitsOf, Matches, I.Wanted, I.ByKey, Kept, I.Candidates, ShowsChunks, IsIndex, UniqueKeys, RoundTrips;
    assert Distinct(IdsOf(kept));
    forall id ensures id in IdsOf(kept) <==> id in ChunkIds(found) {
      SameId(similarity, hits, kept, found, vs, byKey, t, query, m, id);
    }
    SameDistinctElements(IdsOf(kept), ChunkIds(found));
  }

  lemma SameId(similarity: I.Similarity, hits: seq<SearchHit>, kept: seq<SearchHit>, found: seq<VectorRecord>,
               vs: seq<VectorRecord>, byKey: map<VectorKey, VectorRecord>, t: string, query: Vector,
               m: Option<string>, id: string)
    requires Keyed(byKey) && m != Some("")
    requires forall r :: r in vs ==> I.KeyOf(r) in byKey && byKey[I.KeyOf(r)] == r
    requires forall k :: k in byKey ==> byKey[k] in vs
    requires forall h :: h in hits ==> HitsIn(h, similarity, byKey, query, t)
    requires forall x :: VectorKey(t, x) in byKey ==> x in IdsOf(hits)
    requires forall h :: h in kept <==> h in hits && Matches(h, m)
    requires forall r :: r in found <==> r in vs && I.Wanted(r, t, m)
    ensures id in IdsOf(kept) <==> id in ChunkIds(found)
  {
    hide Hits, Matches;
    if id in IdsOf(kept) {
      var i :| 0 <= i < |kept| && kept[i].recordId == id;
      var h := kept[i];
      assert h in kept && h in hits;
      ModulesAgree(similarity, h, byKey, query, t, m);
      var r := byKey[VectorKey(t, id)];
      assert r in found && I.KeyOf(r) == VectorKey(t, id);
      var j :| 0 <= j < |found| && found[j] == r;
      assert ChunkIds(found)[j] == id;
    }
    if id in ChunkIds(found) {
      var j :| 0 <= j < |found| && found[j].chunkId == id;
      var r := found[j];
      assert r in found && r in vs && r.tenant == t;
      assert I.KeyOf(r) == VectorKey(t, id);
      var i :| 0 <= i < |hits| && hits[i].recordId == id;
      var h := hits[i];
      assert h in hits;
      ModulesAgree(similarity, h, byKey, query, t, m);
      assert h in kept;
      var n :| 0 <= n < |kept| && kept[n] == h;
      assert IdsOf(kept)[n] == id;
    }
  }

  function ChunkScore(c: ScoredChunk): real { c.score }

  /** Both rank the same multiset of scores, best first. */
  lemma SameScores(similarity: I.Similarity, json: Json, index: Index, rows: Rows, vs: seq<VectorRecord>,
                   t: string, query: Vector, m: Option<string>)
    requires Comparable(similarity, json, index, rows, vs, t) && m != Some("")
    ensures var mine := Kept(HitsOf(json, rows, index(rows, query)), m);
            var theirs := Ranked(I.Scored(similarity, query, I.Candidates(vs, t, m)), I.ScoreOf);
            Values(mine, HitScore) == Values(theirs, I.ScoreOf)
  {
    var byKey, hits := I.ByKey(vs), HitsOf(json, rows, index(rows, query));
    var kept, found := Kept(hits, m), I.Candidates(vs, t, m);
    var scored := I.Scored(similarity, query, found);
    var f := (id: string) => Score(similarity, byKey, query, t, id);
    assert UniqueKeys(vs);
    KeptScores(similarity, json, index, rows, vs, t, query, m);
    hide Comparable, Kept, HitsOf, I.Candidates, I.ByKey, Ranked, I.Scored;
    assert Values(IdsOf(kept), f) == Values(kept, HitScore) by {
      forall i | 0 <= i < |kept| ensures Values(IdsOf(kept), f)[i] == Values(kept, HitScore)[i] {
        ValueAt(IdsOf(kept), f, i);
        ValueAt(kept, HitScore, i);
        assert f(IdsOf(kept)[i]) == Score(similarity, byKey, query, t, kept[i].recordId);
      }
    }
    FoundValues(similarity, vs, t, query, m, f);
    hide *;
    SameIds(similarity, json, index, rows, vs, t, query, m);
    ValuesOfPermutation(IdsOf(kept), ChunkIds(found), f);
    RankingFalls(scored, I.ScoreOf);
    FallingIsUnique(Values(kept, HitScore), Values(Ranked(scored, I.ScoreOf), I.ScoreOf));
  }

  lemma RankingFalls<T>(xs: seq<T>, key: T -> real)
    ensures Falling(Values(Ranked(xs, key), key))
    ensures multiset(Values(Ranked(xs, key), key)) == multiset(Values(xs, key))
  {
    RankedIsRanking(xs, key);
    hide Ranked;
    ValuesOfPermutation(Ranked(xs, key), xs, key);
  }

  function HitScore(h: SearchHit): real { h.score }

  lemma KeptScores(similarity: I.Similarity, json: Json, index: Index, rows: Rows, vs: seq<VectorRecord>,
                   t: string, query: Vector, m: Option<string>)
    requires Comparable(similarity, json, index, rows, vs, t)
    ensures var kept := Kept(HitsOf(json, rows, index(rows, query)), m);
            && Falling(Values(kept, HitScore))
            && forall i :: 0 <= i < |kept| ==>
                 kept[i].score == Score(similarity, I.ByKey(vs), query, t, kept[i].recordId)
  {
    var hits := HitsOf(json, rows, index(rows, query));
    I.ByKeyMembers(vs);
    HitsAreRecords(similarity, json, index, rows, I.ByKey(vs), t, query);
    hide *;
    ScoresOfKept(similarity, hits, I.ByKey(vs), t, query, m);
  }

  lemma ScoresOfKept(similarity: I.Similarity, hits: seq<SearchHit>, byKey: map<VectorKey, VectorRecord>,
                     t: string, query: Vector, m: Option<string>)
    requires InOrder(hits) && forall h :: h in hits ==> HitsIn(h, similarity, byKey, query, t)
    ensures Falling(Values(Kept(hits, m), HitScore))
    ensures forall i :: 0 <= i < |Kept(hits, m)| ==>
              Kept(hits, m)[i].score == Score(similarity, byKey, query, t, Kept(hits, m)[i].recordId)
  {
    KeptMembers(hits, m);
    KeptInOrder(hits, m);
    hide Kept, Score, Matches;
    var kept := Kept(hits, m);
    forall i | 0 <= i < |kept| ensures Values(kept, HitScore)[i] == kept[i].score {
      ValueAt(kept, HitScore, i);
    }
    forall i | 0 <= i < |kept|
      ensures kept[i].score == Score(similarity, byKey, query, t, kept[i].recordId)
    {
      assert kept[i] in kept;
      assert HitsIn(kept[i], similarity, byKey, query, t);
    }
  }

  lemma FoundValues(similarity: I.Similarity, vs: seq<VectorRecord>, t: string, query: Vector, m: Option<string>,
                    f: string -> real)
    requires UniqueKeys(vs)
    requires forall id :: f(id) == Score(similarity, I.ByKey(vs), query, t, id)
    ensures Values(ChunkIds(I.Candidates(vs, t, m)), f) ==
            Values(I.Scored(similarity, query, I.Candidates(vs, t, m)), I.ScoreOf)
  {
    var found := I.Candidates(vs, t, m);
    var scored := I.Scored(similarity, query, found);
    forall i | 0 <= i < |found| ensures Values(ChunkIds(found), f)[i] == Values(scored, I.ScoreOf)[i] {
      FoundScore(similarity, vs, t, query, m, i);
      ValueAt(scored, I.ScoreOf, i);
      ValueAt(ChunkIds(found), f, i);
    }
  }

  lemma FoundScore(similarity: I.Similarity, vs: seq<VectorRecord>, t: string, query: Vector, m: Option<string>, i: nat)
    requires UniqueKeys(vs) && i < |I.Candidates(vs, t, m)|
    ensures var r := I.Candidates(vs, t, m)[i];
            similarity(query, r.embedding) == Score(similarity, I.ByKey(vs), query, t, r.chunkId)
  {
    var r := I.Candidates(vs, t, m)[i];
    CandidateMembers(vs, t, m);
    ByKeyFinds(vs);
    hide I.ByKey, I.Candidates, UniqueKeys;
    assert r in vs && I.KeyOf(r) == VectorKey(t, r.chunkId);
  }

  /* ---------- the theorem ---------- */

  lemma FirstValues<T>(xs: seq<T>, key: T -> real, k: nat)
    ensures Values(FirstK(xs, k), key) == FirstK(Values(xs, key), k)
  {
  }

  /** The exhaustive search over the collection returns the same scores as the
      reference, in the same order; where scores tie the chunks may differ. */
  lemma SearchesAgree(similarity: I.Similarity, json: Json, index: Index, rows: Rows, vs: seq<VectorRecord>,
                      t: string, query: Vector, k: nat, m: Option<string>)
    requires Comparable(similarity, json, index, rows, vs, t) && m != Some("")
    ensures Values(Exhaustive(HitsOf(json, rows, index(rows, query)), k, m), ChunkScore) ==
            Values(I.Search(similarity, vs, query, k, t, m), ChunkScore)
  {
    var hits := HitsOf(json, rows, index(rows, query));
    var theirs := Ranked(I.Scored(similarity, query, I.Candidates(vs, t, m)), I.ScoreOf);
    assert Exhaustive(hits, k, m) == FirstK(Matching(hits, m), k);
    assert I.Search(similarity, vs, query, k, t, m) == I.ToChunks(FirstK(theirs, k));
    hide *;
    SameScores(similarity, json, index, rows, vs, t, query, m);
    MatchingScores(hits, m);
    FirstValues(Matching(hits, m), ChunkScore, k);
    FirstValues(theirs, I.ScoreOf, k);
    ChunksKeepScores(FirstK(theirs, k));
  }

  lemma MatchingScores(hits: seq<SearchHit>, m: Option<string>)
    ensures Values(Matching(hits, m), ChunkScore) == Values(Kept(hits, m), HitScore)
  {
    KeptBecomeChunks(hits, m);
    hide Matching, Kept;
    forall i | 0 <= i < |Kept(hits, m)|
      ensures Values(Matching(hits, m), ChunkScore)[i] == Values(Kept(hits, m), HitScore)[i]
    {
      assert ChunkScore(Matching(hits, m)[i]) == HitScore(Kept(hits, m)[i]);
    }
  }

  lemma ChunksKeepScores(found: seq<I.Hit>)
    ensures Values(I.ToChunks(found), ChunkScore) == Values(found, I.ScoreOf)
  {
    forall i | 0 <= i < |found|
      ensures Values(I.ToChunks(found), ChunkScore)[i] == Values(found, I.ScoreOf)[i]
    {
      assert ChunkScore(I.ToChunks(found)[i]) == I.ScoreOf(found[i]);
    }
  }

  /** Every chunk found is a record of this tenant and module, as it was upserted. */
  lemma FoundChunksAreRecords(similarity: I.Similarity, json: Json, index: Index, rows: Rows,
                              vs: seq<VectorRecord>, t: string, query: Vector, k: nat, m: Option<string>,
                              c: ScoredChunk)
    requires Comparable(similarity, json, index, rows, vs, t)
    requires c in Exhaustive(HitsOf(json, rows, index(rows, query)), k, m)
    ensures exists r :: r in vs && I.Wanted(r, t, m) && c == ChunkOf(similarity, query, r)
  {
    var hits, byKey := HitsOf(json, rows, index(rows, query)), I.ByKey(vs);
    assert m != Some("") by {
      if m == Some("") {
        EmptyModuleFindsNothing(hits);
      }
    }
    I.ByKeyMembers(vs);
    ByKeyFinds(vs);
    HitsAreRecords(similarity, json, index, rows, byKey, t, query);
    KeptBecomeChunks(hits, m);
    KeptMembers(hits, m);
    var kept := Kept(hits, m);
    hide Comparable, Kept, HitsOf, I.ByKey, IsIndex, ShowsChunks, UniqueKeys, RoundTrips;
    hide FirstK, Matches, I.Wanted, ToChunk, Matching;
    assert c in Matching(hits, m);
    var i :| 0 <= i < |kept| && Matching(hits, m)[i] == c;
    assert kept[i] in kept;
    var h := kept[i];
    ModulesAgree(similarity, h, byKey, query, t, m);
    assert byKey[VectorKey(t, h.recordId)] in vs;
  }

  /** The empty module name is where the two stores part: here it finds nothing, because
      a record without a module is read back with none. */
  lemma {:induction false} EmptyModuleFindsNothing(hits: seq<SearchHit>)
    ensures Matching(hits, Some("")) == []
  {
    if hits != [] {
      EmptyModuleFindsNothing(hits[..|hits| - 1]);
    }
  }

  lemma {:induction false} NoCandidates(vs: seq<VectorRecord>, t: string, m: Option<string>)
    ensures I.Candidates(vs, t, m) == [] <==> forall r :: r in vs ==> !I.Wanted(r, t, m)
    decreases |vs|
  {
    hide I.Wanted;
    if vs != [] {
      NoCandidates(vs[1..], t, m);
      assert vs[0] in vs;
      assert forall r :: r in vs <==> r == vs[0] || r in vs[1..];
    }
  }

  /** The reference store finds nothing exactly when it has no record of the tenant and the
      module; so for the empty module name the stores agree exactly when no record of the
      tenant was stored with it. */
  lemma ReferenceFindsNothingExactlyWhen(similarity: I.Similarity, vs: seq<VectorRecord>, query: Vector, k: nat,
                                         t: string, m: Option<string>)
    requires k >= 1
    ensures I.Search(similarity, vs, query, k, t, m) == [] <==> forall r :: r in vs ==> !I.Wanted(r, t, m)
  {
    var scored := I.Scored(similarity, query, I.Candidates(vs, t, m));
    NoCandidates(vs, t, m);
    RankedIsRanking(scored, I.ScoreOf);
    assert |multiset(Ranked(scored, I.ScoreOf))| == |multiset(scored)|;
    hide I.Candidates, Ranked, I.Wanted;
  }

  lemma {:induction false} DropKeepsUnique(vs: seq<VectorRecord>, keys: set<VectorKey>)
    requires UniqueKeys(vs)
    ensures UniqueKeys(I.Drop(vs, keys))
    decreases |vs|
  {
    if vs != [] {
      DropKeepsUnique(vs[1..], keys);
      I.DropMembers(vs[1..], keys);
      assert forall r :: r in vs[1..] ==> I.KeyOf(r) != I.KeyOf(vs[0]);
    }
  }

  lemma StepKeepsUnique(s: Reference, change: Change)
    requires UniqueKeys(s.vectors)
    ensures UniqueKeys(RefDo(s, change).vectors)
  {
    match change
    case Write(UpsertOp(r)) =>
      DropKeepsUnique(s.vectors, {I.KeyOf(r)});
      I.DropMembers(s.vectors, {I.KeyOf(r)});
      assert forall x :: x in I.Drop(s.vectors, {I.KeyOf(r)}) ==> I.KeyOf(x) != I.KeyOf(r);
    case Write(SaveOp(_, _)) =>
    case Erase(t) =>
      DropKeepsUnique(s.vectors, KeysOfTenant(s.vectors, t));
  }

  lemma {:induction false} RunsKeepUnique(s: Reference, changes: seq<Change>)
    requires UniqueKeys(s.vectors)
    ensures UniqueKeys(RefDoAll(s, changes).vectors)
    decreases |changes|
  {
    hide UniqueKeys, RefDo;
    if changes != [] {
      StepKeepsUnique(s, changes[0]);
      RunsKeepUnique(RefDo(s, changes[0]), changes[1..]);
    }
  }

  /** The hits fetched hold `k` matches, or all the matches there are. */
  predicate FoundEnough(hits: seq<SearchHit>, k: nat, m: Option<string>) {
    var found := |Matching(FirstK(hits, Limit(k, m)), m)|;
    found >= k || found == |Matching(hits, m)|
  }

  /** After any run the tenant's collection can be compared with the reference store. */
  lemma RunsAreComparable(similarity: I.Similarity, digest: Digest, json: Json, index: Index, tenants: set<string>,
                          changes: seq<Change>, t: string, query: Vector)
    requires SeparateTenants(digest, tenants) && t in tenants && RoundTrips(json) && IsIndex(index, similarity)
    requires forall i :: 0 <= i < |changes| ==> Allowed(json, tenants, changes[i])
    ensures var c, name := Effects(digest, json, map[], changes), ChunksName(digest, t);
            var rows := RowsIn(c, name);
            && Comparable(similarity, json, index, rows, RefDoAll(NOTHING, changes).vectors, t)
            && AllHits(json, index, c, name, query) == HitsOf(json, rows, index(rows, query))
  {
    var c, s := Effects(digest, json, map[], changes), RefDoAll(NOTHING, changes);
    var name := ChunksName(digest, t);
    var rows := RowsIn(c, name);
    RunsRefine(digest, json, tenants, changes, t);
    RunsKeepUnique(NOTHING, changes);
    assert Comparable(similarity, json, index, rows, s.vectors, t);
    if name !in c {
      NothingToHit(similarity, index, query);
    }
  }

  /** After any run, what `search_similar` answers a tenant has the scores, best first, of a
      prefix of what the reference store finds after the same run; of the whole of it
      exactly when the hits fetched hold enough, or for the empty module name exactly when
      the tenant has no record that was stored with it. */
  lemma SearchRefines(similarity: I.Similarity, digest: Digest, json: Json, index: Index, tenants: set<string>,
                      changes: seq<Change>, t: string, query: Vector, k: nat, m: Option<string>)
    requires SeparateTenants(digest, tenants) && t in tenants && RoundTrips(json) && IsIndex(index, similarity)
    requires forall i :: 0 <= i < |changes| ==> Allowed(json, tenants, changes[i])
    ensures var hits := AllHits(json, index, Effects(digest, json, map[], changes), ChunksName(digest, t), query);
            var mine := Values(Overfetched(hits, k, m), ChunkScore);
            var vs := RefDoAll(NOTHING, changes).vectors;
            var theirs := Values(I.Search(similarity, vs, query, k, t, m), ChunkScore);
            && mine <= theirs
            && (m != Some("") ==> (mine == theirs <==> FoundEnough(hits, k, m)))
            && (m == Some("") && k >= 1 ==> (mine == theirs <==> forall r :: r in vs ==> !I.Wanted(r, t, m)))
  {
    var c, s := Effects(digest, json, map[], changes), RefDoAll(NOTHING, changes);
    var name := ChunksName(digest, t);
    var rows := RowsIn(c, name);
    var hits := AllHits(json, index, c, name, query);
    RunsAreComparable(similarity, digest, json, index, tenants, changes, t, query);
    if m == Some("") {
      EmptyModuleFindsNothing(FirstK(hits, Limit(k, m)));
      if k >= 1 {
        ReferenceFindsNothingExactlyWhen(similarity, s.vectors, query, k, t, m);
      }
      hide Comparable, HitsOf, AllHits, Effects, RefDoAll, ChunksName, I.Search, FoundEnough, Shows, IsIndex;
    } else {
      hide Comparable, HitsOf, AllHits, Effects, RefDoAll, ChunksName, I.Search, FirstK, Matching, Shows, IsIndex;
      SearchesAgree(similarity, json, index, rows, s.vectors, t, query, k, m);
      OverfetchIsPrefix(hits, k, m);
      PrefixValues(Overfetched(hits, k, m), Exhaustive(hits, k, m));
    }
  }

  lemma IndexHitsExist(similarity: I.Similarity, index: Index, rows: Rows, query: Vector)
    requires IsIndex(index, similarity)
    ensures index(rows, query) != [] ==> index(rows, query)[0].id in rows
  {
  }

  lemma NothingToHit(similarity: I.Similarity, index: Index, query: Vector)
    requires IsIndex(index, similarity)
    ensures index(map[], query) == []
  {
    var none: Rows := map[];
    var hits := index(none, query);
    if hits != [] {
      IndexHitsExist(similarity, index, none, query);
    }
  }

  lemma PrefixValues(a: seq<ScoredChunk>, b: seq<ScoredChunk>)
    requires a <= b
    ensures Values(a, ChunkScore) <= Values(b, ChunkScore)
    ensures Values(a, ChunkScore) == Values(b, ChunkScore) <==> a == b
  {
  }

  /* ---------- which chunks carry the scores ---------- */

  function AllNormal(cs: seq<ScoredChunk>): (ns: seq<ScoredChunk>)
    ensures |ns| == |cs|
  {
    seq(|cs|, i requires 0 <= i < |cs| => cs[i].(erpModule := Normal(cs[i].erpModule)))
  }

  /** No two records that the search may find have one score. */
  ghost predicate NoTies(similarity: I.Similarity, vs: seq<VectorRecord>, query: Vector, t: string, m: Option<string>) {
    forall r, u :: r in vs && u in vs && I.Wanted(r, t, m) && I.Wanted(u, t, m) && r != u ==>
      similarity(query, r.embedding) != similarity(query, u.embedding)
  }

  predicate DistinctChunks(cs: seq<ScoredChunk>) {
    forall i, j :: 0 <= i < j < |cs| ==> cs[i].chunkId != cs[j].chunkId
  }

  lemma FoundChunksAreDistinct(similarity: I.Similarity, json: Json, index: Index, rows: Rows,
                               vs: seq<VectorRecord>, t: string, query: Vector, m: Option<string>)
    requires Comparable(similarity, json, index, rows, vs, t)
    ensures DistinctChunks(Matching(HitsOf(json, rows, index(rows, query)), m))
  {
    var hits, byKey := HitsOf(json, rows, index(rows, query)), I.ByKey(vs);
    I.ByKeyMembers(vs);
    HitsAreRecords(similarity, json, index, rows, byKey, t, query);
    KeptBecomeChunks(hits, m);
    KeptMembers(hits, m);
    KeptInOrder(hits, m);
    var kept := Kept(hits, m);
    hide Comparable, Kept, HitsOf, I.ByKey, Matches, Matching, ToChunk;
    forall i | 0 <= i < |kept| ensures Matching(hits, m)[i].chunkId == kept[i].recordId {
      assert kept[i] in kept;
      assert HitsIn(kept[i], similarity, byKey, query, t);
    }
  }

  /** Without ties the exhaustive search finds the very chunks of the reference. */
  lemma SameChunksWithoutTies(similarity: I.Similarity, json: Json, index: Index, rows: Rows, vs: seq<VectorRecord>,
                              t: string, query: Vector, k: nat, m: Option<string>)
    requires Comparable(similarity, json, index, rows, vs, t) && m != Some("")
    requires NoTies(similarity, vs, query, t, m)
    ensures Exhaustive(HitsOf(json, rows, index(rows, query)), k, m) ==
            AllNormal(I.Search(similarity, vs, query, k, t, m))
  {
    var mine := Exhaustive(HitsOf(json, rows, index(rows, query)), k, m);
    var theirs := I.Search(similarity, vs, query, k, t, m);
    SearchesAgree(similarity, json, index, rows, vs, t, query, k, m);
    hide Comparable, Exhaustive, HitsOf, I.Search, I.Wanted, Normal;
    assert |mine| == |Values(mine, ChunkScore)| == |theirs|;
    forall i | 0 <= i < |mine| ensures mine[i] == AllNormal(theirs)[i] {
      ValueAt(mine, ChunkScore, i);
      ValueAt(theirs, ChunkScore, i);
      assert mine[i] in mine && theirs[i] in theirs;
      FoundChunksAreRecords(similarity, json, index, rows, vs, t, query, k, m, mine[i]);
      I.SearchIsScoped(similarity, vs, query, k, t, m, theirs[i]);
    }
  }

  ghost predicate AllChunksOf(similarity: I.Similarity, vs: seq<VectorRecord>, query: Vector, t: string,
                              m: Option<string>, cs: seq<ScoredChunk>) {
    forall c :: c in cs ==> exists r :: r in vs && I.Wanted(r, t, m) && c == ChunkOf(similarity, query, r)
  }

  lemma OverfetchedAreChunks(similarity: I.Similarity, json: Json, index: Index, rows: Rows, vs: seq<VectorRecord>,
                             t: string, query: Vector, k: nat, m: Option<string>)
    requires Comparable(similarity, json, index, rows, vs, t)
    ensures AllChunksOf(similarity, vs, query, t, m, Overfetched(HitsOf(json, rows, index(rows, query)), k, m))
  {
    var hits := HitsOf(json, rows, index(rows, query));
    OverfetchIsPrefix(hits, k, m);
    hide Comparable, HitsOf, Overfetched, Exhaustive, I.Wanted, ChunkOf;
    forall c | c in Overfetched(hits, k, m)
      ensures exists r :: r in vs && I.Wanted(r, t, m) && c == ChunkOf(similarity, query, r)
    {
      FoundChunksAreRecords(similarity, json, index, rows, vs, t, query, k, m, c);
    }
  }

  lemma OverfetchedAreDistinct(similarity: I.Similarity, json: Json, index: Index, rows: Rows, vs: seq<VectorRecord>,
                               t: string, query: Vector, k: nat, m: Option<string>)
    requires Comparable(similarity, json, index, rows, vs, t)
    ensures DistinctChunks(Overfetched(HitsOf(json, rows, index(rows, query)), k, m))
  {
    var hits := HitsOf(json, rows, index(rows, query));
    OverfetchIsPrefix(hits, k, m);
    FoundChunksAreDistinct(similarity, json, index, rows, vs, t, query, m);
    assert Exhaustive(hits, k, m) <= Matching(hits, m);
  }

  lemma OverfetchedWithoutTies(similarity: I.Similarity, json: Json, index: Index, rows: Rows, vs: seq<VectorRecord>,
                               t: string, query: Vector, k: nat, m: Option<string>)
    requires Comparable(similarity, json, index, rows, vs, t) && NoTies(similarity, vs, query, t, m)
    ensures Overfetched(HitsOf(json, rows, index(rows, query)), k, m) <=
            AllNormal(I.Search(similarity, vs, query, k, t, m))
  {
    var hits := HitsOf(json, rows, index(rows, query));
    hide *;
    if m == Some("") {
      NothingForEmptyModule(hits, k);
    } else {
      SameChunksWithoutTies(similarity, json, index, rows, vs, t, query, k, m);
      OverfetchIsPrefix(hits, k, m);
    }
  }

  /** After any run, everything that `search_similar` answers a tenant is one of the
      tenant's records, no record comes twice, and when no two scores tie the answer begins
      what the reference store finds, chunk by chunk. */
  lemma AnswersAreRecords(similarity: I.Similarity, digest: Digest, json: Json, index: Index, tenants: set<string>,
                          changes: seq<Change>, t: string, query: Vector, k: nat, m: Option<string>)
    requires SeparateTenants(digest, tenants) && t in tenants && RoundTrips(json) && IsIndex(index, similarity)
    requires forall i :: 0 <= i < |changes| ==> Allowed(json, tenants, changes[i])
    ensures var hits := AllHits(json, index, Effects(digest, json, map[], changes), ChunksName(digest, t), query);
            var mine := Overfetched(hits, k, m);
            var vs := RefDoAll(NOTHING, changes).vectors;
            && DistinctChunks(mine) && AllChunksOf(similarity, vs, query, t, m, mine)
            && (NoTies(similarity, vs, query, t, m) ==> mine <= AllNormal(I.Search(similarity, vs, query, k, t, m)))
  {
    hide *;
    var vs := RefDoAll(NOTHING, changes).vectors;
    var rows := RowsIn(Effects(digest, json, map[], changes), ChunksName(digest, t));
    RunsAreComparable(similarity, digest, json, index, tenants, changes, t, query);
    OverfetchedAreDistinct(similarity, json, index, rows, vs, t, query, k, m);
    OverfetchedAreChunks(similarity, json, index, rows, vs, t, query, k, m);
    if NoTies(similarity, vs, query, t, m) {
      OverfetchedWithoutTies(similarity, json, index, rows, vs, t, query, k, m);
    }
  }

  lemma NothingForEmptyModule(hits: seq<SearchHit>, k: nat)
    ensures Overfetched(hits, k, Some("")) == []
  {
    EmptyModuleFindsNothing(FirstK(hits, Limit(k, Some(""))));
  }
}
