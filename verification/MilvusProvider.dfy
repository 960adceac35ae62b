/**
 `MilvusVectorDBProvider` (src/infrastructure/vector_store/milvus_provider.py) over a
 modelled database: a flat map from collection names to rows. SHA-256, JSON and the
 vector index are parameters.
 */
module MilvusProvider {
  import opened Wrappers
  import opened Domain
  import opened Ranking
  import Pigeonhole

  const TEXT_MAX_LEN := 32_000
  const ID_MAX_LEN := 128
  const METADATA_MAX_LEN := 8_192
  const COLLECTION_PREFIX := "erp_t_"
  const HASH_LEN := 10
  const MAX_COLLECTION_LEN := 200

  /* ---------- collection names ---------- */

  /** Hex digests of tenant ids. */
  type Digest = string -> string

  predicate IsHex(c: char) { '0' <= c <= '9' || 'a' <= c <= 'f' }

  ghost predicate IsDigest(digest: Digest) {
    forall t :: |digest(t)| >= HASH_LEN && forall i :: 0 <= i < |digest(t)| ==> IsHex(digest(t)[i])
  }

  /** What `_ILLEGAL_CHARS.sub("_", ...)` and `.lower()` make of one character. */
  function Readable(c: char): char {
    if 'A' <= c <= 'Z' then c - 'A' + 'a'
    else if 'a' <= c <= 'z' || '0' <= c <= '9' then c
    else '_'
  }

  function ShortDigest(digest: Digest, tenant: string): string {
    if |digest(tenant)| <= HASH_LEN then digest(tenant) else digest(tenant)[..HASH_LEN]
  }

  /** What is left of the tenant id in the name. */
  function ReadablePart(tenant: string): string {
    var readable := seq(|tenant|, i requires 0 <= i < |tenant| => Readable(tenant[i]));
    FirstK(readable, MAX_COLLECTION_LEN - |COLLECTION_PREFIX| - HASH_LEN - 1)
  }

  function TenantCollection(digest: Digest, tenant: string): string {
    COLLECTION_PREFIX + ReadablePart(tenant) + "_" + ShortDigest(digest, tenant)
  }

  /** Letters, digits and underscores, not starting with a digit. */
  predicate LegalName(name: string) {
    && name != "" && !('0' <= name[0] <= '9')
    && forall i :: 0 <= i < |name| ==> 'a' <= name[i] <= 'z' || '0' <= name[i] <= '9' || name[i] == '_'
  }

  lemma TenantCollectionIsLegal(digest: Digest, tenant: string)
    requires IsDigest(digest)
    ensures LegalName(TenantCollection(digest, tenant))
    ensures |TenantCollection(digest, tenant)| <= MAX_COLLECTION_LEN
  {
  }

  /** The name of a tenant whose id is of small letters and digits, and not too long. */
  lemma NameIs(digest: Digest, tenant: string)
    requires IsDigest(digest) && |tenant| <= 183
    requires forall i :: 0 <= i < |tenant| ==> 'a' <= tenant[i] <= 'z' || '0' <= tenant[i] <= '9'
    ensures TenantCollection(digest, tenant) == "erp_t_" + tenant + "_" + digest(tenant)[..10]
  {
    assert ReadablePart(tenant) == tenant;
  }

  /** The readable part keeps small letters and digits, makes capital letters small and puts
      an underscore for anything else, up to the character at 183. */
  lemma ReadablePartIs(tenant: string, i: nat)
    requires i < |tenant|
    ensures |ReadablePart(tenant)| == if |tenant| <= 183 then |tenant| else 183
    ensures i < 183 ==>
              var c, r := tenant[i], ReadablePart(tenant)[i];
              && ('a' <= c <= 'z' || '0' <= c <= '9' ==> r == c)
              && ('A' <= c <= 'Z' ==> r as int == c as int + 32)
              && (!('a' <= c <= 'z' || '0' <= c <= '9' || 'A' <= c <= 'Z') ==> r == '_')
  {
  }

  /** Every name ends with the digest, whatever the readable part. */
  lemma NameEndsWithDigest(digest: Digest, tenant: string)
    requires IsDigest(digest)
    ensures var name := TenantCollection(digest, tenant);
            && |name| > HASH_LEN + 6 && |ShortDigest(digest, tenant)| == HASH_LEN
            && name[|name| - HASH_LEN..] == ShortDigest(digest, tenant)
  {
  }

  /** Two tenants have one collection exactly when both the readable parts, which are cut at
      183 characters, and the ten digits of the digests agree. */
  lemma SharedExactlyWhen(digest: Digest, t: string, u: string)
    requires IsDigest(digest)
    ensures TenantCollection(digest, t) == TenantCollection(digest, u) <==>
            ReadablePart(t) == ReadablePart(u) && ShortDigest(digest, t) == ShortDigest(digest, u)
  {
    NameEndsWithDigest(digest, t);
    NameEndsWithDigest(digest, u);
    hide ReadablePart, ShortDigest;
    var name, other := TenantCollection(digest, t), TenantCollection(digest, u);
    assert name[|COLLECTION_PREFIX|..|name| - HASH_LEN - 1] == ReadablePart(t);
    assert other[|COLLECTION_PREFIX|..|other| - HASH_LEN - 1] == ReadablePart(u);
  }

  function HexDigit(c: char): nat
    requires IsHex(c)
    ensures HexDigit(c) < 16
  {
    if c <= '9' then c as nat - '0' as nat else 10 + (c as nat - 'a' as nat)
  }

  function Pow16(n: nat): nat { if n == 0 then 1 else 16 * Pow16(n - 1) }

  function HexValue(s: string): (v: nat)
    requires forall i :: 0 <= i < |s| ==> IsHex(s[i])
    ensures v < Pow16(|s|)
  {
    if s == "" then 0 else 16 * HexValue(s[..|s| - 1]) + HexDigit(s[|s| - 1])
  }

  lemma {:induction false} HexValueIsInjective(s: string, t: string)
    requires |s| == |t| && forall i :: 0 <= i < |s| ==> IsHex(s[i]) && IsHex(t[i])
    requires HexValue(s) == HexValue(t)
    ensures s == t
  {
    if s != "" {
      var n := |s| - 1;
      HexDigitsDiffer(s[n], t[n]);
      SameDigits(HexValue(s[..n]), HexDigit(s[n]), HexValue(t[..n]), HexDigit(t[n]));
      hide *;
      HexValueIsInjective(s[..n], t[..n]);
      assert s == s[..n] + [s[n]] && t == t[..n] + [t[n]];
    }
  }

  lemma SameDigits(a: nat, x: nat, b: nat, y: nat)
    requires x < 16 && y < 16 && 16 * a + x == 16 * b + y
    ensures a == b && x == y
  {
  }

  lemma HexDigitsDiffer(c: char, d: char)
    requires IsHex(c) && IsHex(d)
    ensures HexDigit(c) == HexDigit(d) ==> c == d
  {
  }

  function Pow2(n: nat): nat { if n == 0 then 1 else 2 * Pow2(n - 1) }

  lemma {:induction false} Pow16IsPow2(n: nat)
    ensures Pow16(n) == Pow2(4 * n) > 0
  {
    if n > 0 {
      Pow16IsPow2(n - 1);
      var k := 4 * (n - 1);
      assert Pow2(k + 4) == 2 * Pow2(k + 3) == 4 * Pow2(k + 2) == 8 * Pow2(k + 1) == 16 * Pow2(k);
    }
  }

  predicate AllDashes(s: string) {
    forall k :: 0 <= k < |s| ==> s[k] == '-' || s[k] == '_'
  }

  /** The last `n` binary digits of `i` as a tenant id of minus signs and underscores. */
  function Bits(n: nat, i: nat): (s: string)
    ensures |s| == n && AllDashes(s)
  {
    if n == 0 then "" else Bits(n - 1, i / 2) + [if i % 2 == 0 then '-' else '_']
  }

  lemma {:induction false} BitsAreInjective(n: nat, i: nat, j: nat)
    requires i < Pow2(n) && j < Pow2(n) && Bits(n, i) == Bits(n, j)
    ensures i == j
  {
    if n > 0 {
      assert Bits(n, i)[..n - 1] == Bits(n - 1, i / 2) && Bits(n, j)[..n - 1] == Bits(n - 1, j / 2);
      assert Bits(n, i)[n - 1] == Bits(n, j)[n - 1];
      BitsAreInjective(n - 1, i / 2, j / 2);
    }
  }

  /** The name keeps nothing of these ids but their length. */
  lemma SameReadablePart(t: string, u: string)
    requires |t| == |u| && AllDashes(t) && AllDashes(u)
    ensures ReadablePart(t) == ReadablePart(u)
  {
  }

  /** Whatever the hash, ten digits of it do not tell all tenants apart: some two of the ids
      of 41 minus signs and underscores share a collection. */
  lemma SomeTenantsShareACollection(digest: Digest) returns (t: string, u: string)
    requires IsDigest(digest)
    ensures t != u && |t| == |u| == 41 && AllDashes(t) && AllDashes(u)
    ensures TenantCollection(digest, t) == TenantCollection(digest, u)
  {
    var boxes := Pow16(HASH_LEN);
    Pow16IsPow2(HASH_LEN);
    assert boxes < Pow2(41);
    assert forall i: nat :: |ShortDigest(digest, Bits(41, i))| == HASH_LEN;
    assert forall i: nat, k ::
        0 <= k < HASH_LEN ==> IsHex(ShortDigest(digest, Bits(41, i))[k]);
    hide Pow16, Pow2, Bits;
    var box := (i: nat) => HexValue(ShortDigest(digest, Bits(41, i)));
    var i, j := Pigeonhole.TwoShareABox(box, boxes);
    t, u := Bits(41, i), Bits(41, j);
    HexValueIsInjective(ShortDigest(digest, t), ShortDigest(digest, u));
    SameReadablePart(t, u);
    SharedExactlyWhen(digest, t, u);
    if t == u {
      BitsAreInjective(41, i, j);
    }
  }

  /* ---------- rows ---------- */

  datatype MetaValue = Text(text: string) | Number(number: int)

  type Metadata = map<string, MetaValue>

  /** `json.dumps` and `json.loads` of a metadata dictionary. */
  datatype Json = Json(dumps: Metadata -> string, loads: string -> Option<Metadata>)

  ghost predicate RoundTrips(json: Json) {
    forall m :: json.dumps(m) != "" && json.loads(json.dumps(m)) == Some(m)
  }

  /** The closing brace comes last, so a truncated dictionary does not parse. */
  ghost predicate CutsFail(json: Json) {
    forall m, cut :: cut < json.dumps(m) ==> json.loads(cut) == None
  }

  datatype Row = Row(text: string, metadata: string, vector: Vector)

  /** The rows of one collection by record id. */
  type Rows = map<string, Row>

  datatype NewRecord = NewRecord(id: string, text: string, vector: Vector, metadata: Metadata)

  /** The ids given, or new ones. */
  function IdsFor(n: nat, recordIds: Option<seq<string>>, newIds: nat -> string): (ids: seq<string>)
    requires recordIds.Some? ==> |recordIds.value| == n
    ensures |ids| == n
  {
    match recordIds
    case Some(given) => given
    case None => seq(n, i requires 0 <= i < n => newIds(i))
  }

  /** Zips the parallel lists; a missing metadata list gives every record `{}`. */
  function Zip(texts: seq<string>, vectors: seq<Vector>, metadatas: Option<seq<Metadata>>,
               recordIds: seq<string>): (rs: seq<NewRecord>)
    requires |texts| == |vectors| == |recordIds| && (metadatas.Some? ==> |metadatas.value| == |texts|)
    ensures |rs| == |texts|
  {
    seq(|texts|, i requires 0 <= i < |texts| =>
      NewRecord(recordIds[i], texts[i], vectors[i], if metadatas.Some? then metadatas.value[i] else map[]))
  }

  function RowOf(json: Json, r: NewRecord): (string, Row) {
    (FirstK(r.id, ID_MAX_LEN),
     Row(FirstK(r.text, TEXT_MAX_LEN), FirstK(json.dumps(r.metadata), METADATA_MAX_LEN), r.vector))
  }

  /** Rows hold up to 128 characters of the id, 32000 of the text and 8192 of the metadata. */
  lemma RowIsCut(json: Json, r: NewRecord)
    ensures var (id, row) := RowOf(json, r);
            && id == r.id[..if |r.id| < 128 then |r.id| else 128]
            && row.text == r.text[..if |r.text| < 32_000 then |r.text| else 32_000]
            && row.metadata == (var dumped := json.dumps(r.metadata);
                                dumped[..if |dumped| < 8_192 then |dumped| else 8_192])
            && row.vector == r.vector
  {
  }

  function RowsOf(json: Json, rs: seq<NewRecord>): seq<(string, Row)> {
    seq(|rs|, i requires 0 <= i < |rs| => RowOf(json, rs[i]))
  }

  /** `_decode_metadata`: text that is not a JSON dictionary reads as empty. */
  function DecodeMetadata(json: Json, raw: string): Metadata {
    if raw == "" then map[]
    else match json.loads(raw)
         case Some(m) => m
         case None => map[]
  }

  function UpsertRows(rows: Rows, more: seq<(string, Row)>): Rows
    decreases |more|
  {
    if more == [] then rows else UpsertRows(rows[more[0].0 := more[0].1], more[1..])
  }

  /** Python's `xs[lo:hi]` for `lo >= 0` and any `hi`. */
  function Slice<T>(xs: seq<T>, lo: nat, hi: int): seq<T> {
    var end := if hi >= 0 then (if hi < |xs| then hi else |xs|)
               else (if |xs| + hi > 0 then |xs| + hi else 0);
    if lo < end then xs[lo..end] else []
  }

  /** The rows that the batches from `start` on hand to the driver, in order. */
  function Batches<T>(xs: seq<T>, start: nat, batchSize: int): seq<T>
    decreases |xs| - start
  {
    if start >= |xs| then []
    else Slice(xs, start, start + batchSize) + Batches(xs, start + (if batchSize > 1 then batchSize else 1), batchSize)
  }

  lemma BatchesStep<T>(xs: seq<T>, start: nat, batchSize: int)
    ensures start >= |xs| ==> Batches(xs, start, batchSize) == []
    ensures start < |xs| ==>
              Batches(xs, start, batchSize) == Slice(xs, start, start + batchSize)
                + Batches(xs, start + (if batchSize > 1 then batchSize else 1), batchSize)
  {
  }

  lemma {:induction false} BatchesCover<T>(xs: seq<T>, start: nat, batchSize: int)
    requires start <= |xs| && batchSize >= 1
    ensures Batches(xs, start, batchSize) == xs[start..]
    decreases |xs| - start
  {
    if start + batchSize < |xs| {
      BatchesCover(xs, start + batchSize, batchSize);
    } else if start < |xs| {
      assert Batches(xs, start + batchSize, batchSize) == [];
    }
  }

  lemma {:induction false} BatchesMissLast<T>(xs: seq<T>, start: nat, batchSize: int)
    requires batchSize < 1
    ensures batchSize == 0 ==> Batches(xs, start, batchSize) == []
    ensures forall x :: x in Batches(xs, start, batchSize) ==> x in xs[..if |xs| > 0 then |xs| - 1 else 0]
    decreases |xs| - start
  {
    if start < |xs| {
      BatchesMissLast(xs, start + 1, batchSize);
      var part := Slice(xs, start, start + batchSize);
      assert forall i :: 0 <= i < |part| ==> part[i] == xs[..|xs| - 1][start + i];
    }
  }

  /* ---------- which returned ids are stored ---------- */

  /** The id under which a record is stored. */
  function StoredId(r: NewRecord): string { FirstK(r.id, ID_MAX_LEN) }

  lemma {:induction false} UpsertedIds(stored: Rows, more: seq<(string, Row)>)
    ensures forall id :: id in UpsertRows(stored, more) <==> id in stored || exists r :: r in more && r.0 == id
    decreases |more|
  {
    if more != [] {
      UpsertedIds(stored[more[0].0 := more[0].1], more[1..]);
      assert forall r :: r in more <==> r == more[0] || r in more[1..];
    }
  }

  /** The last row written under an id stays. */
  lemma {:induction false} LastRowStays(stored: Rows, more: seq<(string, Row)>, i: nat)
    requires i < |more| && forall j :: i < j < |more| ==> more[j].0 != more[i].0
    ensures more[i].0 in UpsertRows(stored, more) && UpsertRows(stored, more)[more[i].0] == more[i].1
    decreases |more|
  {
    var first := stored[more[0].0 := more[0].1];
    if i == 0 {
      OtherIdsStay(first, more[1..], more[0].0);
    } else {
      LastRowStays(first, more[1..], i - 1);
    }
  }

  lemma {:induction false} OtherIdsStay(stored: Rows, more: seq<(string, Row)>, id: string)
    requires id in stored && forall j :: 0 <= j < |more| ==> more[j].0 != id
    ensures id in UpsertRows(stored, more) && UpsertRows(stored, more)[id] == stored[id]
    decreases |more|
  {
    if more != [] {
      OtherIdsStay(stored[more[0].0 := more[0].1], more[1..], id);
    }
  }

  /** What `insert_many` leaves in a collection that held `stored`. */
  function AfterInsert(json: Json, stored: Rows, rs: seq<NewRecord>, batchSize: int): Rows {
    UpsertRows(stored, Batches(RowsOf(json, rs), 0, batchSize))
  }

  /** No earlier record and no stored row has the id of the last record. */
  predicate LastIdIsNew(stored: Rows, rs: seq<NewRecord>) {
    rs != [] ==>
      var last := StoredId(rs[|rs| - 1]);
      last !in stored && forall i :: 0 <= i < |rs| - 1 ==> StoredId(rs[i]) != last
  }

  predicate AllStored(rows: Rows, rs: seq<NewRecord>) {
    forall i :: 0 <= i < |rs| ==> StoredId(rs[i]) in rows
  }

  /** A positive batch size stores every record, under each id the last one that has it. */
  lemma PositiveBatchesStoreAll(json: Json, stored: Rows, rs: seq<NewRecord>, batchSize: int)
    requires batchSize >= 1
    ensures var after := AfterInsert(json, stored, rs, batchSize);
            && AllStored(after, rs)
            && forall i :: 0 <= i < |rs| && (forall j :: i < j < |rs| ==> StoredId(rs[j]) != StoredId(rs[i])) ==>
                 after[StoredId(rs[i])] == RowOf(json, rs[i]).1
  {
    var rows := RowsOf(json, rs);
    BatchesCover(rows, 0, batchSize);
    assert rows[0..] == rows;
    UpsertedIds(stored, rows);
    hide UpsertRows, FirstK, Batches;
    forall i | 0 <= i < |rs| ensures StoredId(rs[i]) in UpsertRows(stored, rows) {
      assert rows[i] in rows && rows[i].0 == StoredId(rs[i]);
    }
    forall i | 0 <= i < |rs| && forall j :: i < j < |rs| ==> StoredId(rs[j]) != StoredId(rs[i])
      ensures UpsertRows(stored, rows)[StoredId(rs[i])] == RowOf(json, rs[i]).1
    {
      LastRowStays(stored, rows, i);
    }
  }

  /** Item `i` of the lists is stored under its own id, with its own text, vector and
      metadata, each as far as the field holds, unless a later item has the same id. */
  lemma ItemIsStored(json: Json, stored: Rows, texts: seq<string>, vectors: seq<Vector>,
                     metadatas: Option<seq<Metadata>>, ids: seq<string>, batchSize: int, i: nat)
    requires |texts| == |vectors| == |ids| && (metadatas.Some? ==> |metadatas.value| == |texts|)
    requires batchSize >= 1 && i < |ids| && |ids[i]| <= 128
    requires forall j :: i < j < |ids| ==> FirstK(ids[j], 128) != ids[i]
    ensures var after := AfterInsert(json, stored, Zip(texts, vectors, metadatas, ids), batchSize);
            var dumped := json.dumps(if metadatas.Some? then metadatas.value[i] else map[]);
            && ids[i] in after && after[ids[i]].vector == vectors[i]
            && after[ids[i]].text == texts[i][..if |texts[i]| < 32_000 then |texts[i]| else 32_000]
            && after[ids[i]].metadata == dumped[..if |dumped| < 8_192 then |dumped| else 8_192]
  {
    var rs := Zip(texts, vectors, metadatas, ids);
    PositiveBatchesStoreAll(json, stored, rs, batchSize);
    RowIsCut(json, rs[i]);
    hide AfterInsert, RowOf;
    assert StoredId(rs[i]) == ids[i];
  }

  /** Every id that is returned has been stored exactly when the batch size is positive or
      there is nothing to store. */
  lemma ReturnedIdsAreStoredExactlyWhen(json: Json, stored: Rows, rs: seq<NewRecord>, batchSize: int)
    requires LastIdIsNew(stored, rs)
    ensures AllStored(AfterInsert(json, stored, rs, batchSize), rs) <==> batchSize >= 1 || rs == []
  {
    if batchSize >= 1 {
      PositiveBatchesStoreAll(json, stored, rs, batchSize);
    } else if rs != [] {
      var rows := RowsOf(json, rs);
      BatchesMissLast(rows, 0, batchSize);
      UpsertedIds(stored, Batches(rows, 0, batchSize));
      hide UpsertRows, FirstK, Batches;
      forall r | r in Batches(rows, 0, batchSize) ensures r.0 != StoredId(rs[|rs| - 1]) {
        var i :| 0 <= i < |rows| - 1 && rows[..|rows| - 1][i] == r;
        assert rows[i].0 == StoredId(rs[i]);
      }
    }
  }

  /* ---------- search ---------- */

  /** Ids of a collection in the order the index ranks them for a query. */
  datatype RankedId = RankedId(id: string, score: real)

  type Index = (Rows, Vector) -> seq<RankedId>

  /** A flat index is exact: every row once, with its own similarity, best first. */
  ghost predicate IsIndex(index: Index, similarity: (Vector, Vector) -> real) {
    forall rows: Rows, query: Vector ::
      var hits := index(rows, query);
      && (forall i, j :: 0 <= i < j < |hits| ==> hits[i].id != hits[j].id && hits[i].score >= hits[j].score)
      && (forall id :: id in rows ==> exists i :: 0 <= i < |hits| && hits[i].id == id)
      && (forall i :: 0 <= i < |hits| ==>
            hits[i].id in rows && hits[i].score == similarity(query, rows[hits[i].id].vector))
  }

  datatype SearchHit = SearchHit(recordId: string, text: string, score: real, metadata: Metadata)

  function HitsOf(json: Json, rows: Rows, ranked: seq<RankedId>): seq<SearchHit> {
    seq(|ranked|, i requires 0 <= i < |ranked| =>
      if ranked[i].id in rows
      then var row := rows[ranked[i].id];
           SearchHit(ranked[i].id, row.text, ranked[i].score, DecodeMetadata(json, row.metadata))
      else SearchHit("", "", ranked[i].score, map[]))
  }

  datatype StoredRecord = StoredRecord(recordId: string, text: string, metadata: Metadata)

  /* ---------- the provider ---------- */

  datatype InsertResult = Inserted(ids: seq<string>) | LengthMismatch

  /** The rows of a collection; a collection that does not exist has none. */
  function RowsIn(collections: map<string, Rows>, name: string): Rows {
    if name in collections then collections[name] else map[]
  }

  class MilvusVectorDBProvider {
    const digest: Digest
    const json: Json
    const index: Index
    var collections: map<string, Rows>

    constructor (digest: Digest, json: Json, index: Index)
      ensures this.digest == digest && this.json == json && this.index == index && collections == map[]
    {
      this.digest, this.json, this.index := digest, json, index;
      collections := map[];
    }

    method CreateCollection(name: string, doRecreate: bool)
      modifies this
      ensures collections == if name in old(collections) && !doRecreate then old(collections)
                             else old(collections)[name := map[]]
    {
      if name in collections {
        if !doRecreate {
          return;
        }
        DeleteCollection(name);
      }
      collections := collections[name := map[]];
    }

    method DeleteCollection(name: string)
      modifies this
      ensures collections == old(collections) - {name}
    {
      if name !in collections {
        return;
      }
      collections := collections - {name};
    }

    /** The write loop of `insert_many`. */
    method UpsertInBatches(name: string, rows: seq<(string, Row)>, batchSize: int)
      requires name in collections
      modifies this
      ensures collections ==
                old(collections)[name := UpsertRows(old(collections)[name], Batches(rows, 0, batchSize))]
    {
      hide *;
      var start := 0;
      while start < |rows|
        invariant 0 <= start && name in collections
        invariant collections == old(collections)[name := collections[name]]
        invariant UpsertRows(collections[name], Batches(rows, start, batchSize)) ==
                  UpsertRows(old(collections)[name], Batches(rows, 0, batchSize))
        decreases |rows| - start
      {
        var batch := Slice(rows, start, start + batchSize);
        WriteBatch(collections[name], rows, start, batchSize);
        collections := collections[name := UpsertRows(collections[name], batch)];
        start := start + (if batchSize > 1 then batchSize else 1);
      }
      BatchesStep(rows, start, batchSize);
      UpsertNone(collections[name]);
    }

    /** Records come as parallel lists; `metadatas` and `recordIds` may be missing, and
        `newIds` are the random ids for records without one. */
    method InsertMany(name: string, texts: seq<string>, vectors: seq<Vector>, metadatas: Option<seq<Metadata>>,
                      recordIds: Option<seq<string>>, newIds: nat -> string, batchSize: int)
      returns (result: InsertResult)
      modifies this
      ensures result.LengthMismatch? <==>
                || |texts| != |vectors|
                || (metadatas.Some? && |metadatas.value| != |texts|)
                || (recordIds.Some? && |recordIds.value| != |texts|)
      ensures result.LengthMismatch? || texts == [] ==> collections == old(collections)
      ensures result.Inserted? ==> result.ids == IdsFor(|texts|, recordIds, newIds)
      ensures result.Inserted? && texts != [] ==>
                var rs := Zip(texts, vectors, metadatas, IdsFor(|texts|, recordIds, newIds));
                var stored := RowsIn(old(collections), name);
                collections == old(collections)[name := AfterInsert(json, stored, rs, batchSize)]
    {
      if |texts| != |vectors| {
        return LengthMismatch;
      }
      if metadatas.Some? && |metadatas.value| != |texts| {
        return LengthMismatch;
      }
      if recordIds.Some? && |recordIds.value| != |texts| {
        return LengthMismatch;
      }
      if texts == [] {
        return Inserted([]);
      }
      hide *;
      CreatedIsEmpty(collections, name);
      CreateCollection(name, false);
      assert collections == old(collections)[name := RowsIn(old(collections), name)];
      var ids := IdsFor(|texts|, recordIds, newIds);
      var rows := RowsOf(json, Zip(texts, vectors, metadatas, ids));
      UpsertInBatches(name, rows, batchSize);
      InsertedAre(json, RowsIn(old(collections), name), Zip(texts, vectors, metadatas, ids), batchSize);
      result := Inserted(ids);
    }

    method InsertOne(name: string, text: string, vector: Vector, metadata: Metadata, recordId: string)
      modifies this
      ensures var (id, row) := RowOf(json, NewRecord(recordId, text, vector, metadata));
              collections == old(collections)[name := RowsIn(old(collections), name)[id := row]]
    {
      var result := InsertMany(name, [text], [vector], Some([metadata]), Some([recordId]), _ => "", 50);
      var rows := RowsOf(json, Zip([text], [vector], Some([metadata]), [recordId]));
      BatchesCover(rows, 0, 50);
      assert rows[0..] == rows;
      UpsertOne(RowsIn(old(collections), name), rows[0]);
      assert rows == [rows[0]];
    }

    method GetRecord(name: string, recordId: string) returns (record: Option<StoredRecord>)
      ensures record == if recordId in RowsIn(collections, name)
                        then var row := RowsIn(collections, name)[recordId];
                             Some(StoredRecord(recordId, row.text, DecodeMetadata(json, row.metadata)))
                        else None
    {
      if name !in collections || recordId !in collections[name] {
        return None;
      }
      var row := collections[name][recordId];
      record := Some(StoredRecord(recordId, row.text, DecodeMetadata(json, row.metadata)));
    }

    method SearchByVector(name: string, query: Vector, limit: nat) returns (hits: seq<SearchHit>)
      ensures var rows := RowsIn(collections, name);
              hits == if name in collections then HitsOf(json, rows, FirstK(index(rows, query), limit)) else []
    {
      if name !in collections {
        return [];
      }
      hits := HitsOf(json, collections[name], FirstK(index(collections[name], query), limit));
    }
  }

  lemma {:induction false} UpsertTwice(rows: Rows, a: seq<(string, Row)>, b: seq<(string, Row)>)
    ensures UpsertRows(UpsertRows(rows, a), b) == UpsertRows(rows, a + b)
    decreases |a|
  {
    if a == [] {
      assert a + b == b;
    } else {
      assert (a + b)[1..] == a[1..] + b;
      UpsertTwice(rows[a[0].0 := a[0].1], a[1..], b);
    }
  }

  /** Writing one batch leaves less to write, and changes nothing of the outcome. */
  lemma WriteBatch(stored: Rows, rows: seq<(string, Row)>, start: nat, batchSize: int)
    requires start < |rows|
    ensures var next := start + (if batchSize > 1 then batchSize else 1);
            var after := UpsertRows(stored, Slice(rows, start, start + batchSize));
            UpsertRows(after, Batches(rows, next, batchSize)) == UpsertRows(stored, Batches(rows, start, batchSize))
  {
    hide *;
    BatchesStep(rows, start, batchSize);
    UpsertTwice(stored, Slice(rows, start, start + batchSize),
                Batches(rows, start + (if batchSize > 1 then batchSize else 1), batchSize));
  }

  lemma InsertedAre(json: Json, stored: Rows, rs: seq<NewRecord>, batchSize: int)
    ensures AfterInsert(json, stored, rs, batchSize) == UpsertRows(stored, Batches(RowsOf(json, rs), 0, batchSize))
  {
  }

  lemma CreatedIsEmpty(c: map<string, Rows>, name: string)
    ensures (if name in c then c else c[name := map[]]) == c[name := RowsIn(c, name)]
  {
  }

  lemma UpsertNone(rows: Rows)
    ensures UpsertRows(rows, []) == rows
  {
  }

  lemma UpsertOne(rows: Rows, r: (string, Row))
    ensures UpsertRows(rows, [r]) == rows[r.0 := r.1]
  {
    assert [r][1..] == [];
  }
}
