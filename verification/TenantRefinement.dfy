/**
 `TenantCollectionVectorStore` refines `InMemoryVectorStore`: over any run, the flat
 namespace shows every tenant what the simple store would have shown.
 */
module TenantRefinement {
  import opened Wrappers
  import opened Domain
  import opened MilvusProvider
  import opened TenantVectors
  import I = InMemoryVectors

  type Reference = I.Contents

  const NOTHING := I.Contents(map[], [])

  /* ---------- the reference ---------- */

  function KeysOfTenant(vs: seq<VectorRecord>, tenant: string): set<VectorKey> {
    set r | r in vs && r.tenant == tenant :: I.KeyOf(r)
  }

  function RefDo(s: Reference, change: Change): Reference {
    match change
    case Write(op) => I.Do(s, op)
    case Erase(t) =>
      I.Contents(map k | k in s.store && k.tenant != t :: s.store[k], I.Drop(s.vectors, KeysOfTenant(s.vectors, t)))
  }

  function RefDoAll(s: Reference, changes: seq<Change>): Reference
    decreases |changes|
  {
    if changes == [] then s else RefDoAll(RefDo(s, changes[0]), changes[1..])
  }

  function Effects(digest: Digest, json: Json, c: map<string, Rows>, changes: seq<Change>): map<string, Rows>
    decreases |changes|
  {
    if changes == [] then c else Effects(digest, json, Effect(digest, json, c, changes[0]), changes[1..])
  }

  /* ---------- the relation ---------- */

  /** The collection of chunks shows the reference's records of tenant `t`. */
  ghost predicate ShowsChunks(json: Json, rows: Rows, m: map<VectorKey, VectorRecord>, t: string) {
    forall id ::
      && (id in rows <==> VectorKey(t, id) in m)
      && (id in rows ==> Fits(json, ChunkRecord(m[VectorKey(t, id)])))
      && (id in rows ==> rows[id] == RowOf(json, ChunkRecord(m[VectorKey(t, id)])).1)
  }

  ghost predicate ShowsMarkers(json: Json, rows: Rows, store: map<Key, int>, t: string) {
    forall a ::
      && (a in rows <==> Key(a, t) in store)
      && (a in rows ==> Fits(json, MarkerRecord(a, store[Key(a, t)])))
      && (a in rows ==> rows[a] == RowOf(json, MarkerRecord(a, store[Key(a, t)])).1)
  }

  ghost predicate Shows(digest: Digest, json: Json, c: map<string, Rows>, s: Reference, t: string) {
    && ShowsChunks(json, RowsIn(c, ChunksName(digest, t)), I.ByKey(s.vectors), t)
    && ShowsMarkers(json, RowsIn(c, StateName(digest, t)), s.store, t)
  }

  /** The change belongs to one of `tenants`, and nothing in it is truncated. */
  predicate Allowed(json: Json, tenants: set<string>, change: Change) {
    && TenantVectors.TenantOf(change) in tenants
    && match change
       case Write(UpsertOp(r)) => Fits(json, ChunkRecord(r))
       case Write(SaveOp(k, n)) => Fits(json, MarkerRecord(k.asset, n))
       case Erase(_) => true
  }

  /* ---------- other tenants ---------- */

  /** An operation of one tenant leaves every other tenant's collections as they are,
      whatever it writes. */
  lemma OtherTenantsUntouched(digest: Digest, json: Json, tenants: set<string>, c: map<string, Rows>,
                              change: Change, u: string)
    requires SeparateTenants(digest, tenants) && u in tenants
    requires TenantVectors.TenantOf(change) in tenants && TenantVectors.TenantOf(change) != u
    ensures RowsIn(Effect(digest, json, c, change), ChunksName(digest, u)) == RowsIn(c, ChunksName(digest, u))
    ensures RowsIn(Effect(digest, json, c, change), StateName(digest, u)) == RowsIn(c, StateName(digest, u))
  {
    var t := TenantVectors.TenantOf(change);
    NamesAreApart(digest, tenants, t, u);
    ChunksNameIsNoStateName(digest, t, u);
    ChunksNameIsNoStateName(digest, u, t);
    hide ChunksName, StateName;
  }

  /** The isolation holds exactly for tenants without a shared collection: with one, an
      upsert of the first tenant is a row of the second. */
  lemma UntouchedExactlyWhen(digest: Digest, json: Json, t: string, u: string)
    requires IsDigest(digest) && t != u
    ensures (forall c, change :: TenantVectors.TenantOf(change) == t ==> Untouched(digest, json, c, change, u)) <==>
            TenantCollection(digest, t) != TenantCollection(digest, u)
  {
    if TenantCollection(digest, t) != TenantCollection(digest, u) {
      forall c, change | TenantVectors.TenantOf(change) == t ensures Untouched(digest, json, c, change, u) {
        OtherTenantsUntouched(digest, json, {t, u}, c, change, u);
      }
    } else {
      var r := I.VectorRecord("", "", [], "", t, None);
      var change := Write(I.UpsertOp(r));
      assert TenantVectors.TenantOf(change) == t;
      assert RowOf(json, ChunkRecord(r)).0 in RowsIn(Effect(digest, json, map[], change), ChunksName(digest, u));
      assert !Untouched(digest, json, map[], change, u);
    }
  }

  ghost predicate Untouched(digest: Digest, json: Json, c: map<string, Rows>, change: Change, u: string) {
    && RowsIn(Effect(digest, json, c, change), ChunksName(digest, u)) == RowsIn(c, ChunksName(digest, u))
    && RowsIn(Effect(digest, json, c, change), StateName(digest, u)) == RowsIn(c, StateName(digest, u))
  }

  lemma ReferenceOfOthers(s: Reference, change: Change, u: string)
    requires TenantVectors.TenantOf(change) != u
    ensures forall id ::
              (VectorKey(u, id) in I.ByKey(RefDo(s, change).vectors) <==> VectorKey(u, id) in I.ByKey(s.vectors))
    ensures forall id :: VectorKey(u, id) in I.ByKey(s.vectors) ==>
              I.ByKey(RefDo(s, change).vectors)[VectorKey(u, id)] == I.ByKey(s.vectors)[VectorKey(u, id)]
    ensures forall a :: (Key(a, u) in RefDo(s, change).store <==> Key(a, u) in s.store)
    ensures forall a :: Key(a, u) in s.store ==> RefDo(s, change).store[Key(a, u)] == s.store[Key(a, u)]
  {
    match change
    case Write(UpsertOp(r)) =>
      I.ByKeyPut(s.vectors, r);
      hide I.ByKey, I.Put;
    case Write(SaveOp(k, n)) =>
    case Erase(t) =>
      I.ByKeyDrop(s.vectors, KeysOfTenant(s.vectors, t));
      hide I.ByKey, I.Drop;
  }

  lemma OthersStillShown(digest: Digest, json: Json, tenants: set<string>, c: map<string, Rows>, s: Reference,
                         change: Change, u: string)
    requires SeparateTenants(digest, tenants) && u in tenants && TenantVectors.TenantOf(change) in tenants
    requires TenantVectors.TenantOf(change) != u && Shows(digest, json, c, s, u)
    ensures Shows(digest, json, Effect(digest, json, c, change), RefDo(s, change), u)
  {
    OtherTenantsUntouched(digest, json, tenants, c, change, u);
    ReferenceOfOthers(s, change, u);
    var after, before := I.ByKey(RefDo(s, change).vectors), I.ByKey(s.vectors);
    var store := RefDo(s, change).store;
    hide Effect, RefDo, I.ByKey, ChunksName, StateName, RowsIn, ShowsChunks, ShowsMarkers;
    ChunksStillShown(json, RowsIn(c, ChunksName(digest, u)), before, after, u);
    MarkersStillShown(json, RowsIn(c, StateName(digest, u)), s.store, store, u);
  }

  lemma ChunksStillShown(json: Json, rows: Rows, m: map<VectorKey, VectorRecord>, n: map<VectorKey, VectorRecord>,
                         u: string)
    requires ShowsChunks(json, rows, m, u)
    requires forall id :: VectorKey(u, id) in n <==> VectorKey(u, id) in m
    requires forall id :: VectorKey(u, id) in m ==> n[VectorKey(u, id)] == m[VectorKey(u, id)]
    ensures ShowsChunks(json, rows, n, u)
  {
    hide Fits, RowOf, ChunkRecord;
  }

  lemma MarkersStillShown(json: Json, rows: Rows, m: map<Key, int>, n: map<Key, int>, u: string)
    requires ShowsMarkers(json, rows, m, u)
    requires forall a :: Key(a, u) in n <==> Key(a, u) in m
    requires forall a :: Key(a, u) in m ==> n[Key(a, u)] == m[Key(a, u)]
    ensures ShowsMarkers(json, rows, n, u)
  {
    hide Fits, RowOf, MarkerRecord;
  }

  /* ---------- the tenant's own ---------- */

  lemma OwnUpsertShown(digest: Digest, json: Json, c: map<string, Rows>, s: Reference, r: VectorRecord)
    requires IsDigest(digest) && Shows(digest, json, c, s, r.tenant) && Fits(json, ChunkRecord(r))
    ensures Shows(digest, json, Effect(digest, json, c, Write(I.UpsertOp(r))), RefDo(s, Write(I.UpsertOp(r))), r.tenant)
  {
    ChunksNameIsNoStateName(digest, r.tenant, r.tenant);
    I.ByKeyPut(s.vectors, r);
    hide I.ByKey, I.Put, ChunksName, StateName, Fits, RowOf, ChunkRecord, MarkerRecord, ShowsChunks, ShowsMarkers;
    UpsertShown(json, RowsIn(c, ChunksName(digest, r.tenant)), I.ByKey(s.vectors), r);
  }

  lemma UpsertShown(json: Json, rows: Rows, m: map<VectorKey, VectorRecord>, r: VectorRecord)
    requires ShowsChunks(json, rows, m, r.tenant) && Fits(json, ChunkRecord(r))
    ensures var (id, row) := RowOf(json, ChunkRecord(r));
            ShowsChunks(json, rows[id := row], m[I.KeyOf(r) := r], r.tenant)
  {
  }

  lemma OwnMarkerShown(digest: Digest, json: Json, c: map<string, Rows>, s: Reference, k: Key, n: int)
    requires IsDigest(digest) && Shows(digest, json, c, s, k.tenant) && Fits(json, MarkerRecord(k.asset, n))
    ensures var change := Write(I.SaveOp(k, n));
            Shows(digest, json, Effect(digest, json, c, change), RefDo(s, change), k.tenant)
  {
  }

  lemma OwnErasureShown(digest: Digest, json: Json, c: map<string, Rows>, s: Reference, t: string)
    requires IsDigest(digest)
    ensures Shows(digest, json, Effect(digest, json, c, Erase(t)), RefDo(s, Erase(t)), t)
  {
    var keys := KeysOfTenant(s.vectors, t);
    I.ByKeyDrop(s.vectors, keys);
    I.ByKeyMembers(s.vectors);
    hide I.ByKey, I.Drop, ChunksName, StateName, Fits, RowOf, ChunkRecord, MarkerRecord;
    forall id ensures VectorKey(t, id) !in I.ByKey(RefDo(s, Erase(t)).vectors) {
      if VectorKey(t, id) in I.ByKey(s.vectors) {
        var r := I.ByKey(s.vectors)[VectorKey(t, id)];
        assert r in s.vectors && I.KeyOf(r) == VectorKey(t, id);
      }
    }
  }

  /** One operation takes related states to related states. */
  lemma StepRefines(digest: Digest, json: Json, tenants: set<string>, c: map<string, Rows>, s: Reference,
                    change: Change)
    requires SeparateTenants(digest, tenants) && Allowed(json, tenants, change)
    requires forall t :: t in tenants ==> Shows(digest, json, c, s, t)
    ensures forall t :: t in tenants ==> Shows(digest, json, Effect(digest, json, c, change), RefDo(s, change), t)
  {
    hide Shows, Effect, RefDo, Fits;
    forall t | t in tenants ensures Shows(digest, json, Effect(digest, json, c, change), RefDo(s, change), t) {
      if t != TenantVectors.TenantOf(change) {
        OthersStillShown(digest, json, tenants, c, s, change, t);
      } else {
        match change
        case Write(UpsertOp(r)) => OwnUpsertShown(digest, json, c, s, r);
        case Write(SaveOp(k, n)) => OwnMarkerShown(digest, json, c, s, k, n);
        case Erase(_) => OwnErasureShown(digest, json, c, s, t);
      }
    }
  }

  lemma {:induction false} RunsRefineFrom(digest: Digest, json: Json, tenants: set<string>, c: map<string, Rows>,
                                          s: Reference, changes: seq<Change>)
    requires SeparateTenants(digest, tenants)
    requires forall i :: 0 <= i < |changes| ==> Allowed(json, tenants, changes[i])
    requires forall t :: t in tenants ==> Shows(digest, json, c, s, t)
    ensures forall t :: t in tenants ==>
              Shows(digest, json, Effects(digest, json, c, changes), RefDoAll(s, changes), t)
    decreases |changes|
  {
    hide Shows, Effect, RefDo, Allowed;
    if changes != [] {
      StepRefines(digest, json, tenants, c, s, changes[0]);
      RunsRefineFrom(digest, json, tenants, Effect(digest, json, c, changes[0]), RefDo(s, changes[0]), changes[1..]);
    }
  }

  /** Over any run of any tenants without a shared collection, every tenant's two collections
      hold exactly the reference store's records and markers of that tenant. */
  lemma RunsRefine(digest: Digest, json: Json, tenants: set<string>, changes: seq<Change>, t: string)
    requires SeparateTenants(digest, tenants) && t in tenants
    requires forall i :: 0 <= i < |changes| ==> Allowed(json, tenants, changes[i])
    ensures Shows(digest, json, Effects(digest, json, map[], changes), RefDoAll(NOTHING, changes), t)
  {
    forall u | u in tenants ensures Shows(digest, json, map[], NOTHING, u) {
    }
    RunsRefineFrom(digest, json, tenants, map[], NOTHING, changes);
  }

  /* ---------- what the callers see ---------- */

  /** The recorded count is the reference's. `has_vectors` agrees with the reference
      unless the asset was recorded with a count of zero or less: the reference then
      says yes and this store says no. */
  lemma CountsAgree(digest: Digest, json: Json, c: map<string, Rows>, s: Reference, k: Key)
    requires RoundTrips(json) && Shows(digest, json, c, s, k.tenant)
    ensures var n := CountIn(json, RowsIn(c, StateName(digest, k.tenant)), k.asset);
            && n == (if k in s.store then s.store[k] else 0)
            && ((n > 0 <==> k in s.store) <==> (k in s.store ==> s.store[k] > 0))
  {
  }

  /** Without the limits on sizes: a marker is read back exactly when neither its id
      nor its metadata was truncated (or there was nothing to count). An asset whose
      id is longer than 128 characters never looks embedded. */
  lemma MarkerIsReadBackExactlyWhen(json: Json, c: map<string, Rows>, name: string, a: string, n: int)
    requires RoundTrips(json) && CutsFail(json)
    requires forall id :: id in RowsIn(c, name) ==> |id| <= ID_MAX_LEN
    ensures CountIn(json, RowsIn(Store(json, c, name, MarkerRecord(a, n)), name), a) == n <==>
            n == 0 || (|a| <= ID_MAX_LEN && |json.dumps(MarkerRecord(a, n).metadata)| <= METADATA_MAX_LEN)
  {
  }
}
