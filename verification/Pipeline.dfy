/**
 The document pipeline as a protocol over the shared stores.
 */
module Pipeline {
  import opened Wrappers
  import opened Domain

  function RecordOf(k: Key, c: Chunk): Record {
    Record(k.asset, k.tenant, c.text, c.erpModule)
  }

  function VectorKeyOf(k: Key, c: Chunk): VectorKey {
    VectorKey(k.tenant, c.id)
  }

  /* ---------- state ---------- */

  // Ingest and embed deliveries run the use cases in src/use_cases/tasks/. Each effect on
  // a store is one step, any number of deliveries interleave, and a worker may die between
  // any two steps. A broker that redelivers is a new delivery of the same key.

  datatype IngestPc =
    | Received
    | Checked
    | Chunked(chunks: seq<Chunk>)
    | Inserting(chunks: seq<Chunk>, done: nat)
    | Saved(chunks: seq<Chunk>)
    | Marked

  datatype EmbedPc =
    | Waiting
    | Cleared
    | Upserting(chunks: seq<Chunk>, done: nat)

  datatype IngestRun = IngestRun(key: Key, pc: IngestPc)

  datatype EmbedRun = EmbedRun(key: Key, pc: EmbedPc)

  /** A chunk together with the asset it was cut from. */
  datatype Issued = Issued(key: Key, chunk: Chunk)

  /** `issued` and `produced` are bookkeeping: every chunk a chunker returned, and
      the list that was being saved when an asset was marked processed. */
  datatype State = State(
    stored: map<Key, seq<Chunk>>,
    processed: set<Key>,
    jobs: set<Key>,
    vectors: map<VectorKey, Record>,
    markers: map<Key, nat>,
    ingests: map<nat, IngestRun>,
    embeds: map<nat, EmbedRun>,
    issued: set<Issued>,
    produced: map<Key, seq<Chunk>>)

  /** `oneIngestPerAsset`: at most one live ingest delivery per key.
      `atomicSave`: the in-memory chunk store replaces a list in one step, the Mongo
      one deletes and then inserts. `zeroIsEmbedded`: the in-memory vector store
      takes any marker as done, the Milvus one wants a positive count. */
  datatype Config = Config(oneIngestPerAsset: bool, atomicSave: bool, zeroIsEmbedded: bool)

  const START := State(map[], {}, {}, map[], map[], map[], map[], {}, map[])

  /** `find_by_asset` */
  function Stored(s: State, k: Key): seq<Chunk> {
    if k in s.stored then s.stored[k] else []
  }

  predicate HasVectors(cfg: Config, s: State, k: Key) {
    k in s.markers && (cfg.zeroIsEmbedded || s.markers[k] > 0)
  }

  /* ---------- steps ---------- */

  datatype Action =
    | StartIngest(d: nat, key: Key)
    | CheckIngest(d: nat)
    | CutChunks(d: nat, chunks: seq<Chunk>)
    | SaveAtOnce(d: nat)
    | DeleteOld(d: nat)
    | InsertNext(d: nat)
    | FinishInsert(d: nat)
    | MarkProcessed(d: nat)
    | DispatchEmbed(d: nat)
    | LoseIngest(d: nat)
    | StartEmbed(d: nat, key: Key)
    | CheckEmbed(d: nat)
    | LoadChunks(d: nat)
    | UpsertNext(d: nat)
    | SaveVectors(d: nat)
    | LoseEmbed(d: nat)

  /** Chunk ids are new: distinct from each other and from every id in use. */
  predicate FreshIds(s: State, cs: seq<Chunk>) {
    && (forall i, j :: 0 <= i < j < |cs| ==> cs[i].id != cs[j].id)
    && (forall i, o :: 0 <= i < |cs| && o in s.issued ==> cs[i].id != o.chunk.id)
  }

  predicate Enabled(cfg: Config, s: State, a: Action) {
    match a
    case StartIngest(d, k) =>
      d !in s.ingests && (cfg.oneIngestPerAsset ==> forall e :: e in s.ingests ==> s.ingests[e].key != k)
    case CheckIngest(d) => d in s.ingests && s.ingests[d].pc.Received?
    case CutChunks(d, cs) => d in s.ingests && s.ingests[d].pc.Checked? && FreshIds(s, cs)
    case SaveAtOnce(d) => cfg.atomicSave && d in s.ingests && s.ingests[d].pc.Chunked?
    case DeleteOld(d) => !cfg.atomicSave && d in s.ingests && s.ingests[d].pc.Chunked?
    case InsertNext(d) =>
      d in s.ingests && s.ingests[d].pc.Inserting? && s.ingests[d].pc.done < |s.ingests[d].pc.chunks|
    case FinishInsert(d) =>
      d in s.ingests && s.ingests[d].pc.Inserting? && s.ingests[d].pc.done == |s.ingests[d].pc.chunks|
    case MarkProcessed(d) => d in s.ingests && s.ingests[d].pc.Saved?
    case DispatchEmbed(d) => d in s.ingests && s.ingests[d].pc.Marked?
    case LoseIngest(d) => d in s.ingests
    case StartEmbed(d, k) => d !in s.embeds && k in s.jobs
    case CheckEmbed(d) => d in s.embeds && s.embeds[d].pc.Waiting?
    case LoadChunks(d) => d in s.embeds && s.embeds[d].pc.Cleared?
    case UpsertNext(d) =>
      d in s.embeds && s.embeds[d].pc.Upserting? && s.embeds[d].pc.done < |s.embeds[d].pc.chunks|
    case SaveVectors(d) =>
      d in s.embeds && s.embeds[d].pc.Upserting? && s.embeds[d].pc.done == |s.embeds[d].pc.chunks|
    case LoseEmbed(d) => d in s.embeds
  }

  function IngestTo(s: State, d: nat, pc: IngestPc): State
    requires d in s.ingests
  {
    s.(ingests := s.ingests[d := s.ingests[d].(pc := pc)])
  }

  function EmbedTo(s: State, d: nat, pc: EmbedPc): State
    requires d in s.embeds
  {
    s.(embeds := s.embeds[d := s.embeds[d].(pc := pc)])
  }

  function EndIngest(s: State, d: nat): State {
    s.(ingests := s.ingests - {d})
  }

  function EndEmbed(s: State, d: nat): State {
    s.(embeds := s.embeds - {d})
  }

  function Apply(cfg: Config, s: State, a: Action): State
    requires Enabled(cfg, s, a)
  {
    match a
    case StartIngest(d, k) => s.(ingests := s.ingests[d := IngestRun(k, Received)])
    case CheckIngest(d) =>
      // An asset that is already processed is skipped.
      if s.ingests[d].key in s.processed then EndIngest(s, d) else IngestTo(s, d, Checked)
    case CutChunks(d, cs) =>
      IngestTo(s, d, Chunked(cs)).(issued := s.issued + set c | c in cs :: Issued(s.ingests[d].key, c))
    case SaveAtOnce(d) =>
      var IngestRun(k, Chunked(cs)) := s.ingests[d];
      IngestTo(s, d, Saved(cs)).(stored := s.stored[k := cs])
    case DeleteOld(d) =>
      var IngestRun(k, Chunked(cs)) := s.ingests[d];
      IngestTo(s, d, Inserting(cs, 0)).(stored := s.stored - {k})
    case InsertNext(d) =>
      var IngestRun(k, Inserting(cs, n)) := s.ingests[d];
      IngestTo(s, d, Inserting(cs, n + 1)).(stored := s.stored[k := Stored(s, k) + [cs[n]]])
    case FinishInsert(d) => IngestTo(s, d, Saved(s.ingests[d].pc.chunks))
    case MarkProcessed(d) =>
      var IngestRun(k, Saved(cs)) := s.ingests[d];
      IngestTo(s, d, Marked).(processed := s.processed + {k}, produced := s.produced[k := cs])
    case DispatchEmbed(d) => EndIngest(s, d).(jobs := s.jobs + {s.ingests[d].key})
    case LoseIngest(d) => EndIngest(s, d)
    case StartEmbed(d, k) => s.(embeds := s.embeds[d := EmbedRun(k, Waiting)])
    case CheckEmbed(d) =>
      if HasVectors(cfg, s, s.embeds[d].key) then EndEmbed(s, d) else EmbedTo(s, d, Cleared)
    case LoadChunks(d) => EmbedTo(s, d, Upserting(Stored(s, s.embeds[d].key), 0))
    case UpsertNext(d) =>
      var EmbedRun(k, Upserting(cs, n)) := s.embeds[d];
      EmbedTo(s, d, Upserting(cs, n + 1)).(vectors := s.vectors[VectorKeyOf(k, cs[n]) := RecordOf(k, cs[n])])
    case SaveVectors(d) =>
      var EmbedRun(k, Upserting(cs, n)) := s.embeds[d];
      EndEmbed(s, d).(markers := s.markers[k := |cs|])
    case LoseEmbed(d) => EndEmbed(s, d)
  }

  /** The state after a list of steps, if each was possible when it came. */
  function Run(cfg: Config, s: State, steps: seq<Action>): Option<State>
    decreases |steps|
  {
    if steps == [] then Some(s)
    else if Enabled(cfg, s, steps[0]) then Run(cfg, Apply(cfg, s, steps[0]), steps[1..])
    else None
  }

  /* ---------- what is claimed ---------- */

  /** The record of chunk `c` of `k` is in the vector store, unaltered. */
  predicate Searchable(s: State, k: Key, c: Chunk) {
    VectorKeyOf(k, c) in s.vectors && s.vectors[VectorKeyOf(k, c)] == RecordOf(k, c)
  }

  /** The completion marker of `k` is true: every stored chunk can be found, and the
      count is the number of chunks. */
  predicate MarkerIsTrue(s: State, k: Key) {
    k in s.markers ==>
      s.markers[k] == |Stored(s, k)| && forall c :: c in Stored(s, k) ==> Searchable(s, k, c)
  }

  /** Nothing is in the vector store that is not a stored chunk of its asset. */
  predicate NoStaleVectors(s: State) {
    forall v :: v in s.vectors ==>
      var k := Key(s.vectors[v].asset, v.tenant);
      exists c :: c in Stored(s, k) && VectorKeyOf(k, c) == v && s.vectors[v] == RecordOf(k, c)
  }

  /* ---------- the invariant ---------- */

  predicate IdsAreUnique(s: State) {
    forall o, p :: o in s.issued && p in s.issued && o.chunk.id == p.chunk.id ==> o == p
  }

  predicate AllIssued(s: State, k: Key, cs: seq<Chunk>) {
    forall c :: c in cs ==> Issued(k, c) in s.issued
  }

  predicate IngestOk(s: State, r: IngestRun) {
    && (r.pc.Marked? ==> r.key in s.processed)
    && (r.pc.Checked? || r.pc.Chunked? || r.pc.Inserting? || r.pc.Saved? ==> r.key !in s.processed)
    && (r.pc.Chunked? || r.pc.Inserting? || r.pc.Saved? ==> AllIssued(s, r.key, r.pc.chunks))
    && (r.pc.Inserting? ==> r.pc.done <= |r.pc.chunks| && Stored(s, r.key) == r.pc.chunks[..r.pc.done])
    && (r.pc.Saved? ==> Stored(s, r.key) == r.pc.chunks)
  }

  predicate EmbedOk(s: State, r: EmbedRun) {
    && r.key in s.processed && r.key in s.jobs
    && (r.pc.Upserting? ==>
          && r.pc.chunks == Stored(s, r.key) && r.pc.done <= |r.pc.chunks|
          && forall i :: 0 <= i < r.pc.done ==> Searchable(s, r.key, r.pc.chunks[i]))
  }

  predicate OneIngestPerAsset(s: State) {
    forall d, e :: d in s.ingests && e in s.ingests && d != e ==> s.ingests[d].key != s.ingests[e].key
  }

  predicate Inv(s: State) {
    && OneIngestPerAsset(s)
    && IdsAreUnique(s)
    && (forall k :: k in s.stored ==> AllIssued(s, k, s.stored[k]))
    && (forall d :: d in s.ingests ==> IngestOk(s, s.ingests[d]))
    && s.jobs <= s.processed
    && (forall d :: d in s.embeds ==> EmbedOk(s, s.embeds[d]))
    && (forall k :: k in s.processed ==> k in s.produced && s.produced[k] == Stored(s, k))
    && (forall k :: k in s.markers ==> k in s.jobs && MarkerIsTrue(s, k))
    && VectorsOk(s)
  }

  /** Each vector belongs to a stored chunk of a processed asset. */
  predicate VectorOk(s: State, v: VectorKey, r: Record) {
    exists o :: o in s.issued && VectorKeyOf(o.key, o.chunk) == v && r == RecordOf(o.key, o.chunk)
                && o.key in s.processed && o.chunk in Stored(s, o.key)
  }

  predicate VectorsOk(s: State) {
    forall v :: v in s.vectors ==> VectorOk(s, v, s.vectors[v])
  }

  /* ---------- preservation ---------- */

  /** Nothing a processed asset depends on was touched. */
  predicate Keeps(s: State, t: State) {
    && s.processed <= t.processed && s.jobs <= t.jobs && s.issued <= t.issued
    && s.markers.Keys <= t.markers.Keys
    && (forall k :: k in s.processed ==> Stored(t, k) == Stored(s, k))
    && (forall v :: v in s.vectors ==> v in t.vectors && t.vectors[v] == s.vectors[v])
  }

  /** Whatever a step keeps, it keeps true of embeds, markers and vectors it did not
      write itself. */
  lemma ReadersKept(s: State, t: State)
    requires Inv(s) && Keeps(s, t)
    ensures forall d :: d in s.embeds ==> EmbedOk(t, s.embeds[d])
    ensures forall k :: k in s.markers && (k in t.markers ==> t.markers[k] == s.markers[k]) ==> MarkerIsTrue(t, k)
    ensures forall v :: v in s.vectors ==> VectorOk(t, v, s.vectors[v])
  {
  }

  predicate IngestAction(a: Action) {
    a.StartIngest? || a.CheckIngest? || a.CutChunks? || a.SaveAtOnce? || a.DeleteOld? || a.InsertNext?
    || a.FinishInsert? || a.MarkProcessed? || a.DispatchEmbed? || a.LoseIngest?
  }

  /** A save touches only the list of its own key, which is not processed yet. */
  lemma SaveKeeps(cfg: Config, s: State, a: Action)
    requires Inv(s) && Enabled(cfg, s, a) && (a.SaveAtOnce? || a.DeleteOld? || a.InsertNext?)
    ensures Keeps(s, Apply(cfg, s, a))
  {
    assert IngestOk(s, s.ingests[a.d]);
  }

  lemma KeepsWithoutWrites(s: State, t: State)
    requires t.stored == s.stored && t.vectors == s.vectors && t.markers == s.markers
    requires s.processed <= t.processed && s.jobs <= t.jobs && s.issued <= t.issued
    ensures Keeps(s, t)
  {
  }

  lemma OtherIngestsWriteNothing(cfg: Config, s: State, a: Action)
    requires Enabled(cfg, s, a) && IngestAction(a) && !a.SaveAtOnce? && !a.DeleteOld? && !a.InsertNext?
    ensures var t := Apply(cfg, s, a);
            && t.stored == s.stored && t.vectors == s.vectors && t.markers == s.markers
            && s.processed <= t.processed && s.jobs <= t.jobs && s.issued <= t.issued
  {
    hide FreshIds, Stored, HasVectors, VectorKeyOf, RecordOf;
    match a
    case StartIngest(d, k) =>
    case CutChunks(d, cs) =>
    case MarkProcessed(d) =>
    case DispatchEmbed(d) =>
    case _ =>
  }

  /** Ingest steps keep what processed assets depend on. */
  lemma IngestKeeps(cfg: Config, s: State, a: Action)
    requires Inv(s) && Enabled(cfg, s, a) && IngestAction(a)
    ensures Keeps(s, Apply(cfg, s, a))
  {
    if a.SaveAtOnce? || a.DeleteOld? || a.InsertNext? {
      SaveKeeps(cfg, s, a);
    } else {
      hide Inv, Keeps;
      OtherIngestsWriteNothing(cfg, s, a);
      hide Apply;
      KeepsWithoutWrites(s, Apply(cfg, s, a));
    }
  }

  /** What delivery `d` does to its own key is invisible to the other deliveries. */
  ghost predicate OnlyOwnKey(s: State, t: State, d: nat)
    requires d in s.ingests
  {
    var k := s.ingests[d].key;
    && t.ingests.Keys <= s.ingests.Keys
    && (forall e :: e in t.ingests && e != d ==> t.ingests[e] == s.ingests[e])
    && (d in t.ingests ==> t.ingests[d].key == k)
    && s.issued <= t.issued && s.processed <= t.processed <= s.processed + {k}
    && (forall j :: j != k ==> Stored(t, j) == Stored(s, j))
  }

  lemma OthersStayOk(s: State, t: State, d: nat, e: nat)
    requires Inv(s) && d in s.ingests && OnlyOwnKey(s, t, d)
    requires e in t.ingests && e != d
    ensures IngestOk(t, t.ingests[e])
  {
    assert IngestOk(s, s.ingests[e]);
  }

  lemma OwnKeyStep(s: State, t: State, d: nat)
    requires Inv(s) && d in s.ingests && OnlyOwnKey(s, t, d) && Keeps(s, t)
    requires d in t.ingests ==> IngestOk(t, t.ingests[d])
    requires IdsAreUnique(t) && AllIssued(t, s.ingests[d].key, Stored(t, s.ingests[d].key))
    requires s.jobs <= t.jobs <= s.jobs + {s.ingests[d].key} && t.jobs <= t.processed
    requires t.embeds == s.embeds && t.markers == s.markers && t.vectors == s.vectors
    requires forall k :: k in t.processed ==> k in t.produced && t.produced[k] == Stored(t, k)
    ensures Inv(t)
  {
    ReadersKept(s, t);
    forall e | e in t.ingests ensures IngestOk(t, t.ingests[e]) {
      if e != d {
        OthersStayOk(s, t, d, e);
      }
    }
    hide Keeps, EmbedOk, MarkerIsTrue, VectorOk, Searchable, IngestOk, IdsAreUnique;
    forall k | k in t.stored ensures AllIssued(t, k, t.stored[k]) {
      assert t.stored[k] == Stored(t, k);
      assert k != s.ingests[d].key ==> AllIssued(s, k, Stored(s, k));
    }
  }

  lemma StartIngestStep(cfg: Config, s: State, d: nat, k: Key)
    requires Inv(s) && Enabled(cfg, s, StartIngest(d, k)) && cfg.oneIngestPerAsset
    ensures Inv(Apply(cfg, s, StartIngest(d, k)))
  {
    var t := Apply(cfg, s, StartIngest(d, k));
    ReadersKept(s, t);
    hide Keeps, EmbedOk, MarkerIsTrue, VectorOk, Searchable;
    forall e | e in t.ingests ensures IngestOk(t, t.ingests[e]) {
      assert e != d ==> IngestOk(s, s.ingests[e]);
    }
  }

  lemma CutChunksStep(cfg: Config, s: State, d: nat, cs: seq<Chunk>)
    requires Inv(s) && Enabled(cfg, s, CutChunks(d, cs))
    ensures Inv(Apply(cfg, s, CutChunks(d, cs)))
  {
    var t := Apply(cfg, s, CutChunks(d, cs));
    IngestKeeps(cfg, s, CutChunks(d, cs));
    forall o, p | o in t.issued && p in t.issued && o.chunk.id == p.chunk.id ensures o == p {
      if o !in s.issued {
        var i :| 0 <= i < |cs| && cs[i] == o.chunk;
        assert p !in s.issued;
        var j :| 0 <= j < |cs| && cs[j] == p.chunk;
      }
    }
    hide Keeps;
    assert IngestOk(s, s.ingests[d]);
    OwnKeyStep(s, t, d);
  }

  lemma WriteIsOwn(s: State, t: State, d: nat, pc: IngestPc, cs: seq<Chunk>)
    requires d in s.ingests
    requires t == IngestTo(s, d, pc).(stored := t.stored)
    requires var k := s.ingests[d].key;
             t.stored == s.stored[k := cs] || (cs == [] && t.stored == s.stored - {k})
    ensures OnlyOwnKey(s, t, d) && Stored(t, s.ingests[d].key) == cs
  {
  }

  lemma StoreIsOwn(cfg: Config, s: State, a: Action)
    requires Inv(s) && Enabled(cfg, s, a) && (a.SaveAtOnce? || a.DeleteOld? || a.InsertNext?)
    ensures var t := Apply(cfg, s, a); OnlyOwnKey(s, t, a.d) && IngestOk(t, t.ingests[a.d])
    ensures AllIssued(Apply(cfg, s, a), s.ingests[a.d].key, Stored(Apply(cfg, s, a), s.ingests[a.d].key))
  {
    var r, t := s.ingests[a.d], Apply(cfg, s, a);
    assert IngestOk(s, r);
    hide Inv, OnlyOwnKey;
    match a
    case SaveAtOnce(d) => WriteIsOwn(s, t, d, Saved(r.pc.chunks), r.pc.chunks);
    case DeleteOld(d) => WriteIsOwn(s, t, d, Inserting(r.pc.chunks, 0), []);
    case InsertNext(d) => InsertIsOwn(cfg, s, d);
  }

  lemma InsertIsOwn(cfg: Config, s: State, d: nat)
    requires Enabled(cfg, s, InsertNext(d)) && IngestOk(s, s.ingests[d])
    ensures var t := Apply(cfg, s, InsertNext(d)); OnlyOwnKey(s, t, d) && IngestOk(t, t.ingests[d])
    ensures AllIssued(Apply(cfg, s, InsertNext(d)), s.ingests[d].key,
                      Stored(Apply(cfg, s, InsertNext(d)), s.ingests[d].key))
  {
    var r, t := s.ingests[d], Apply(cfg, s, InsertNext(d));
    var n := r.pc.done;
    assert r.pc.chunks[..n] + [r.pc.chunks[n]] == r.pc.chunks[..n + 1];
    WriteIsOwn(s, t, d, Inserting(r.pc.chunks, n + 1), r.pc.chunks[..n + 1]);
    hide OnlyOwnKey;
  }

  lemma StoreStep(cfg: Config, s: State, a: Action)
    requires Inv(s) && Enabled(cfg, s, a) && (a.SaveAtOnce? || a.DeleteOld? || a.InsertNext?)
    ensures Inv(Apply(cfg, s, a))
  {
    var t := Apply(cfg, s, a);
    IngestKeeps(cfg, s, a);
    StoreIsOwn(cfg, s, a);
    hide IngestOk, EmbedOk, Keeps, OnlyOwnKey, AllIssued, MarkerIsTrue, VectorsOk;
    assert forall k :: k in t.processed ==> k in t.produced && t.produced[k] == Stored(t, k) by {
      UnprocessedStays(s, t);
    }
    OwnKeyStep(s, t, a.d);
  }

  lemma UnprocessedStays(s: State, t: State)
    requires Keeps(s, t) && t.processed == s.processed && t.produced == s.produced
    requires forall k :: k in s.processed ==> k in s.produced && s.produced[k] == Stored(s, k)
    ensures forall k :: k in t.processed ==> k in t.produced && t.produced[k] == Stored(t, k)
  {
  }

  /** A step on the vector side: the chunk side is as it was. */
  predicate OnlyVectorSide(s: State, t: State) {
    && t.stored == s.stored && t.processed == s.processed && t.jobs == s.jobs && t.ingests == s.ingests
    && t.issued == s.issued && t.produced == s.produced
  }

  /** A step that only moves or ends delivery `d`. */
  lemma MoveStep(cfg: Config, s: State, t: State, d: nat)
    requires Inv(s) && d in s.ingests && t.stored == s.stored && t.processed == s.processed
    requires OnlyVectorSide(s, t.(ingests := s.ingests, jobs := s.jobs))
    requires t.embeds == s.embeds && t.markers == s.markers && t.vectors == s.vectors
    requires t.ingests == s.ingests - {d} ||
             (t.ingests.Keys == s.ingests.Keys && t.ingests == s.ingests[d := t.ingests[d]] &&
              t.ingests[d].key == s.ingests[d].key && IngestOk(t, t.ingests[d]))
    requires s.jobs <= t.jobs <= s.jobs + {s.ingests[d].key} && t.jobs <= t.processed
    ensures Inv(t)
  {
    assert forall k :: Stored(t, k) == Stored(s, k);
    assert AllIssued(t, s.ingests[d].key, Stored(t, s.ingests[d].key));
    assert OnlyOwnKey(s, t, d);
    hide IngestOk, EmbedOk, MarkerIsTrue, VectorsOk;
    OwnKeyStep(s, t, d);
  }

  lemma CheckStep(cfg: Config, s: State, d: nat)
    requires Inv(s) && Enabled(cfg, s, CheckIngest(d))
    ensures Inv(Apply(cfg, s, CheckIngest(d)))
  {
    JobsAreProcessed(s);
    hide Inv;
    if s.ingests[d].key in s.processed {
      MoveStep(cfg, s, EndIngest(s, d), d);
    } else {
      MoveStep(cfg, s, IngestTo(s, d, Checked), d);
    }
  }

  lemma FinishStep(cfg: Config, s: State, d: nat)
    requires Inv(s) && Enabled(cfg, s, FinishInsert(d))
    ensures Inv(Apply(cfg, s, FinishInsert(d)))
  {
    var t := Apply(cfg, s, FinishInsert(d));
    assert IngestOk(s, s.ingests[d]);
    assert IngestOk(t, t.ingests[d]);
    hide Inv;
    MoveStep(cfg, s, t, d);
  }

  lemma EndStep(cfg: Config, s: State, a: Action)
    requires Inv(s) && Enabled(cfg, s, a) && (a.DispatchEmbed? || a.LoseIngest?)
    ensures Inv(Apply(cfg, s, a))
  {
    var t := Apply(cfg, s, a);
    assert IngestOk(s, s.ingests[a.d]);
    MoveStep(cfg, s, t, a.d);
  }

  lemma MarkStep(cfg: Config, s: State, d: nat)
    requires Inv(s) && Enabled(cfg, s, MarkProcessed(d))
    ensures Inv(Apply(cfg, s, MarkProcessed(d)))
  {
    var t := Apply(cfg, s, MarkProcessed(d));
    IngestKeeps(cfg, s, MarkProcessed(d));
    assert IngestOk(s, s.ingests[d]);
    assert forall k :: Stored(t, k) == Stored(s, k);
    assert OnlyOwnKey(s, t, d);
    hide *;
    OwnKeyStep(s, t, d);
  }

  lemma IngestStep(cfg: Config, s: State, a: Action)
    requires Inv(s) && Enabled(cfg, s, a) && IngestAction(a) && cfg.oneIngestPerAsset
    ensures Inv(Apply(cfg, s, a))
  {
    hide Inv, Enabled, Apply;
    match a
    case StartIngest(d, k) => StartIngestStep(cfg, s, d, k);
    case CutChunks(d, cs) => CutChunksStep(cfg, s, d, cs);
    case SaveAtOnce(d) => StoreStep(cfg, s, a);
    case DeleteOld(d) => StoreStep(cfg, s, a);
    case InsertNext(d) => StoreStep(cfg, s, a);
    case CheckIngest(d) => CheckStep(cfg, s, d);
    case FinishInsert(d) => FinishStep(cfg, s, d);
    case MarkProcessed(d) => MarkStep(cfg, s, d);
    case DispatchEmbed(d) => EndStep(cfg, s, a);
    case LoseIngest(d) => EndStep(cfg, s, a);
  }

  lemma VectorSideStep(s: State, t: State)
    requires Inv(s) && OnlyVectorSide(s, t)
    requires forall d :: d in t.embeds ==> EmbedOk(t, t.embeds[d])
    requires forall k :: k in t.markers ==> k in t.jobs && MarkerIsTrue(t, k)
    requires VectorsOk(t)
    ensures Inv(t)
  {
    hide EmbedOk, MarkerIsTrue, VectorsOk;
    assert forall k :: Stored(t, k) == Stored(s, k);
    forall d | d in t.ingests ensures IngestOk(t, t.ingests[d]) {
      assert IngestOk(s, s.ingests[d]);
    }
  }

  /** A chunk id belongs to one chunk, so writing its record again changes nothing. */
  lemma UpsertKeeps(cfg: Config, s: State, d: nat)
    requires Inv(s) && Enabled(cfg, s, UpsertNext(d))
    ensures var t := Apply(cfg, s, UpsertNext(d));
            && Keeps(s, t)
            && var EmbedRun(k, Upserting(cs, n)) := s.embeds[d];
               VectorOk(t, VectorKeyOf(k, cs[n]), RecordOf(k, cs[n])) && Searchable(t, k, cs[n])
  {
    var t := Apply(cfg, s, UpsertNext(d));
    var EmbedRun(k, Upserting(cs, n)) := s.embeds[d];
    assert EmbedOk(s, s.embeds[d]);
    var o := Issued(k, cs[n]);
    var v := VectorKeyOf(k, cs[n]);
    assert cs[n] in Stored(s, k) && o in s.issued;
    assert o in t.issued && VectorKeyOf(o.key, o.chunk) == v && o.chunk in Stored(t, k);
    if v in s.vectors {
      assert VectorOk(s, v, s.vectors[v]);
    }
  }

  /** The delivery itself is still in order after its upsert. */
  lemma UpsertMoves(cfg: Config, s: State, d: nat)
    requires Inv(s) && Enabled(cfg, s, UpsertNext(d))
    requires Keeps(s, Apply(cfg, s, UpsertNext(d)))
    requires var EmbedRun(k, Upserting(cs, n)) := s.embeds[d];
             Searchable(Apply(cfg, s, UpsertNext(d)), k, cs[n])
    ensures EmbedOk(Apply(cfg, s, UpsertNext(d)), Apply(cfg, s, UpsertNext(d)).embeds[d])
  {
    assert EmbedOk(s, s.embeds[d]);
  }

  lemma UpsertStep(cfg: Config, s: State, d: nat)
    requires Inv(s) && Enabled(cfg, s, UpsertNext(d))
    ensures var t := Apply(cfg, s, UpsertNext(d)); Inv(t) && Keeps(s, t)
  {
    var t := Apply(cfg, s, UpsertNext(d));
    UpsertKeeps(cfg, s, d);
    ReadersKept(s, t);
    UpsertMoves(cfg, s, d);
    hide Keeps, EmbedOk, MarkerIsTrue, VectorOk, Searchable, IngestOk, AllIssued, IdsAreUnique, RecordOf;
    VectorSideStep(s, t);
  }

  lemma SaveVectorsStep(cfg: Config, s: State, d: nat)
    requires Inv(s) && Enabled(cfg, s, SaveVectors(d))
    ensures var t := Apply(cfg, s, SaveVectors(d)); Inv(t) && Keeps(s, t)
  {
    var t := Apply(cfg, s, SaveVectors(d));
    assert Keeps(s, t);
    ReadersKept(s, t);
    assert EmbedOk(s, s.embeds[d]);
    assert MarkerIsTrue(t, s.embeds[d].key);
    hide Keeps, EmbedOk, MarkerIsTrue, VectorOk, Searchable;
    VectorSideStep(s, t);
  }

  lemma EmbedMoveStep(cfg: Config, s: State, t: State, d: nat)
    requires Inv(s) && OnlyVectorSide(s, t) && t.markers == s.markers && t.vectors == s.vectors
    requires t.embeds == s.embeds - {d} ||
             (d in t.embeds && t.embeds == s.embeds[d := t.embeds[d]] && EmbedOk(t, t.embeds[d]))
    ensures Inv(t) && Keeps(s, t)
  {
    assert forall k :: Stored(t, k) == Stored(s, k);
    assert Keeps(s, t);
    ReadersKept(s, t);
    hide Keeps, EmbedOk, MarkerIsTrue, VectorOk, Searchable;
    VectorSideStep(s, t);
  }

  lemma EmbedRunIsOk(s: State, d: nat)
    requires Inv(s) && d in s.embeds
    ensures EmbedOk(s, s.embeds[d])
  {
  }

  lemma JobsAreProcessed(s: State)
    requires Inv(s)
    ensures s.jobs <= s.processed
  {
  }

  lemma EmbedStep(cfg: Config, s: State, a: Action)
    requires Inv(s) && Enabled(cfg, s, a) && !IngestAction(a)
    ensures var t := Apply(cfg, s, a); Inv(t) && Keeps(s, t)
  {
    hide Inv, Keeps;
    match a
    case UpsertNext(d) => UpsertStep(cfg, s, d);
    case SaveVectors(d) => SaveVectorsStep(cfg, s, d);
    case StartEmbed(d, k) =>
      JobsAreProcessed(s);
      EmbedMoveStep(cfg, s, Apply(cfg, s, a), d);
    case CheckEmbed(d) =>
      EmbedRunIsOk(s, d);
      EmbedMoveStep(cfg, s, Apply(cfg, s, a), d);
    case LoadChunks(d) =>
      EmbedRunIsOk(s, d);
      EmbedMoveStep(cfg, s, Apply(cfg, s, a), d);
    case LoseEmbed(d) =>
      EmbedMoveStep(cfg, s, Apply(cfg, s, a), d);
  }

  lemma StepKeepsInvariant(cfg: Config, s: State, a: Action)
    requires Inv(s) && Enabled(cfg, s, a) && cfg.oneIngestPerAsset
    ensures Inv(Apply(cfg, s, a)) && Keeps(s, Apply(cfg, s, a))
  {
    if IngestAction(a) {
      IngestKeeps(cfg, s, a);
      IngestStep(cfg, s, a);
    } else {
      EmbedStep(cfg, s, a);
    }
  }

  lemma KeepsIsTransitive(s: State, t: State, u: State)
    requires Keeps(s, t) && Keeps(t, u)
    ensures Keeps(s, u)
  {
  }

  lemma {:induction false} RunsKeepInvariant(cfg: Config, s: State, steps: seq<Action>)
    requires cfg.oneIngestPerAsset && Inv(s) && Run(cfg, s, steps).Some?
    ensures Inv(Run(cfg, s, steps).value) && Keeps(s, Run(cfg, s, steps).value)
    decreases |steps|
  {
    if steps == [] {
      assert Keeps(s, s);
    } else {
      hide Inv, Enabled, Apply, Keeps;
      var next := Apply(cfg, s, steps[0]);
      StepKeepsInvariant(cfg, s, steps[0]);
      RunsKeepInvariant(cfg, next, steps[1..]);
      KeepsIsTransitive(s, next, Run(cfg, s, steps).value);
    }
  }

  lemma {:induction false} RunAppend(cfg: Config, s: State, steps: seq<Action>, more: seq<Action>)
    ensures Run(cfg, s, steps + more) ==
            (if Run(cfg, s, steps).None? then None else Run(cfg, Run(cfg, s, steps).value, more))
    decreases |steps|
  {
    hide Enabled, Apply;
    if steps == [] {
      assert steps + more == more;
    } else {
      assert (steps + more)[1..] == steps[1..] + more;
      if Enabled(cfg, s, steps[0]) {
        RunAppend(cfg, Apply(cfg, s, steps[0]), steps[1..], more);
      }
    }
  }

  /* ---------- the main results ---------- */

  /** In every reachable state a completion marker is true and the vector store holds
      nothing but stored chunks: whatever the interleaving, wherever workers died. */
  lemma MarkersNeverLie(cfg: Config, steps: seq<Action>, k: Key)
    requires cfg.oneIngestPerAsset && Run(cfg, START, steps).Some?
    ensures MarkerIsTrue(Run(cfg, START, steps).value, k)
    ensures NoStaleVectors(Run(cfg, START, steps).value)
  {
    RunsKeepInvariant(cfg, START, steps);
    var s := Run(cfg, START, steps).value;
    hide Run;
    forall v | v in s.vectors
      ensures var j := Key(s.vectors[v].asset, v.tenant);
              exists c :: c in Stored(s, j) && VectorKeyOf(j, c) == v && s.vectors[v] == RecordOf(j, c)
    {
      assert VectorOk(s, v, s.vectors[v]);
    }
  }

  /** Once processed, an asset has the whole list its ingest produced, in every later
      state too; an embed job or a marker exists only for processed assets. */
  lemma ProcessedIsFinal(cfg: Config, steps: seq<Action>, more: seq<Action>, k: Key)
    requires cfg.oneIngestPerAsset && Run(cfg, START, steps + more).Some?
    ensures Run(cfg, START, steps).Some?
    ensures var s, t := Run(cfg, START, steps).value, Run(cfg, START, steps + more).value;
            && (k in s.processed ==>
                  k in t.processed && k in s.produced && Stored(t, k) == Stored(s, k) == s.produced[k])
            && (k in s.jobs || k in s.markers ==> k in s.processed)
            && (k in s.markers ==> k in t.markers && forall c :: c in Stored(s, k) ==> Searchable(t, k, c))
  {
    RunAppend(cfg, START, steps, more);
    RunsKeepInvariant(cfg, START, steps);
    RunsKeepInvariant(cfg, Run(cfg, START, steps).value, more);
  }

  /* ---------- the two chunk stores and the two vector stores ---------- */

  /** An embed delivery is skipped for a marked asset; the Milvus store takes a count of zero
      for no marker. */
  lemma CheckSkipsExactlyWhen(cfg: Config, s: State, d: nat)
    requires Enabled(cfg, s, CheckEmbed(d))
    ensures d !in Apply(cfg, s, CheckEmbed(d)).embeds <==>
            var k := s.embeds[d].key; k in s.markers && (cfg.zeroIsEmbedded || s.markers[k] > 0)
  {
  }

  function InsertSteps(d: nat, n: nat): seq<Action> {
    if n == 0 then [FinishInsert(d)] else [InsertNext(d)] + InsertSteps(d, n - 1)
  }

  /** Delivery `d` has come to `pc` and `list` is stored under its key. */
  function With(s: State, d: nat, pc: IngestPc, list: seq<Chunk>): State
    requires d in s.ingests
  {
    IngestTo(s, d, pc).(stored := s.stored[s.ingests[d].key := list])
  }

  lemma WithTwice(s: State, d: nat, pc: IngestPc, list: seq<Chunk>, pc': IngestPc, list': seq<Chunk>)
    requires d in s.ingests
    ensures With(With(s, d, pc, list), d, pc', list') == With(s, d, pc', list')
  {
    var next := With(s, d, pc, list);
    var k := s.ingests[d].key;
    assert next.stored[k := list'] == s.stored[k := list'];
    assert next.ingests[d := s.ingests[d].(pc := pc')] == s.ingests[d := s.ingests[d].(pc := pc')];
  }

  lemma RunCons(cfg: Config, s: State, a: Action, rest: seq<Action>)
    requires Enabled(cfg, s, a)
    ensures Run(cfg, s, [a] + rest) == Run(cfg, Apply(cfg, s, a), rest)
  {
    hide Enabled, Apply;
    assert ([a] + rest)[1..] == rest;
  }

  lemma InsertIs(cfg: Config, s: State, d: nat, cs: seq<Chunk>, done: nat)
    requires done < |cs| && d in s.ingests && s.ingests[d].pc == Inserting(cs, done)
    requires Stored(s, s.ingests[d].key) == cs[..done]
    ensures Enabled(cfg, s, InsertNext(d))
    ensures Apply(cfg, s, InsertNext(d)) == With(s, d, Inserting(cs, done + 1), cs[..done + 1])
  {
    assert cs[..done] + [cs[done]] == cs[..done + 1];
  }

  lemma FinishIs(cfg: Config, s: State, d: nat, cs: seq<Chunk>)
    requires d in s.ingests && s.ingests[d].pc == Inserting(cs, |cs|)
    requires Stored(s, s.ingests[d].key) == cs && (cs != [] ==> s.ingests[d].key in s.stored)
    ensures Enabled(cfg, s, FinishInsert(d))
    ensures Apply(cfg, s, FinishInsert(d)) == if cs == [] then IngestTo(s, d, Saved(cs)) else With(s, d, Saved(cs), cs)
  {
    var k := s.ingests[d].key;
    assert cs != [] ==> s.stored[k := cs] == s.stored;
  }

  lemma {:induction false} InsertsFillTheList(cfg: Config, s: State, d: nat, cs: seq<Chunk>, done: nat)
    requires done <= |cs| && d in s.ingests && s.ingests[d].pc == Inserting(cs, done)
    requires Stored(s, s.ingests[d].key) == cs[..done] && (done > 0 ==> s.ingests[d].key in s.stored)
    ensures Run(cfg, s, InsertSteps(d, |cs| - done)) ==
            Some(if cs == [] then IngestTo(s, d, Saved(cs)) else With(s, d, Saved(cs), cs))
    decreases |cs| - done
  {
    hide Enabled, Apply;
    if done == |cs| {
      assert cs[..done] == cs;
      FinishIs(cfg, s, d, cs);
      assert [FinishInsert(d)] + [] == [FinishInsert(d)];
      RunCons(cfg, s, FinishInsert(d), []);
    } else {
      var next := With(s, d, Inserting(cs, done + 1), cs[..done + 1]);
      InsertIs(cfg, s, d, cs, done);
      RunCons(cfg, s, InsertNext(d), InsertSteps(d, |cs| - done - 1));
      InsertsFillTheList(cfg, next, d, cs, done + 1);
      hide Run;
      WithTwice(s, d, Inserting(cs, done + 1), cs[..done + 1], Saved(cs), cs);
    }
  }

  lemma DeleteIs(cfg: Config, s: State, d: nat, cs: seq<Chunk>)
    requires Enabled(cfg, s, DeleteOld(d)) && s.ingests[d].pc == Chunked(cs)
    ensures var t := Apply(cfg, s, DeleteOld(d));
            && d in t.ingests && t.ingests[d] == IngestRun(s.ingests[d].key, Inserting(cs, 0))
            && Stored(t, s.ingests[d].key) == []
            && With(t, d, Saved(cs), cs) == With(s, d, Saved(cs), cs)
            && IngestTo(t, d, Saved(cs)) == IngestTo(s, d, Saved(cs)).(stored := s.stored - {s.ingests[d].key})
  {
    var k := s.ingests[d].key;
    var t := Apply(cfg, s, DeleteOld(d));
    var saved := s.ingests[d].(pc := Saved(cs));
    assert (s.stored - {k})[k := cs] == s.stored[k := cs];
    assert t.ingests[d := saved] == s.ingests[d := saved];
  }

  lemma SaveIs(cfg: Config, atomic: Config, s: State, d: nat, cs: seq<Chunk>)
    requires Enabled(cfg, s, DeleteOld(d)) && atomic.atomicSave && s.ingests[d].pc == Chunked(cs)
    ensures Enabled(atomic, s, SaveAtOnce(d))
    ensures Apply(atomic, s, SaveAtOnce(d)) == With(s, d, Saved(cs), cs)
  {
  }

  lemma NoEntryIsEmptyList(s: State, d: nat)
    requires d in s.ingests
    ensures var t := IngestTo(s, d, Saved([])).(stored := s.stored - {s.ingests[d].key});
            var u := With(s, d, Saved([]), []);
            (forall k :: Stored(t, k) == Stored(u, k)) && t.(stored := u.stored) == u
  {
  }

  /** Deleting and then inserting, uninterrupted, comes to the same as replacing the list at
      once, except that an empty list leaves no entry. */
  lemma TwoStepSaveIsSave(cfg: Config, atomic: Config, s: State, d: nat, cs: seq<Chunk>)
    requires Enabled(cfg, s, DeleteOld(d)) && atomic.atomicSave && s.ingests[d].pc == Chunked(cs)
    ensures Enabled(atomic, s, SaveAtOnce(d))
    ensures var t := Run(cfg, s, [DeleteOld(d)] + InsertSteps(d, |cs|));
            var u := Apply(atomic, s, SaveAtOnce(d));
            t.Some? && (cs != [] ==> t.value == u) && (forall k :: Stored(t.value, k) == Stored(u, k))
            && t.value.(stored := u.stored) == u
  {
    SaveIs(cfg, atomic, s, d, cs);
    var next := Apply(cfg, s, DeleteOld(d));
    DeleteIs(cfg, s, d, cs);
    RunCons(cfg, s, DeleteOld(d), InsertSteps(d, |cs|));
    hide Run, InsertSteps, Apply, Enabled;
    InsertsFillTheList(cfg, next, d, cs, 0);
    hide *;
    if cs == [] {
      NoEntryIsEmptyList(s, d);
    }
  }
}
