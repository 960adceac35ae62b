/**
 What the document pipeline does not provide: embed jobs that a dying worker loses, and
 true markers while two ingests of one asset are live.
 */
module PipelineGaps {
  import opened Wrappers
  import opened Domain
  import opened Pipeline

  /* ---------- lost jobs ---------- */

  /** Processed, but its embed job was never sent and nobody is left to send it. */
  predicate JobLost(s: State, k: Key) {
    k in s.processed && k !in s.jobs &&
    forall d :: d in s.ingests ==> !(s.ingests[d].key == k && s.ingests[d].pc.Marked?)
  }

  lemma EmbedsStartNoJob(cfg: Config, s: State, a: Action)
    requires Enabled(cfg, s, a) && !IngestAction(a)
    ensures var t := Apply(cfg, s, a); t.ingests == s.ingests && t.jobs == s.jobs && t.processed == s.processed
  {
    hide HasVectors, Stored, VectorKeyOf, RecordOf;
  }

  lemma LostJobStep(cfg: Config, s: State, a: Action, k: Key)
    requires JobLost(s, k) && Enabled(cfg, s, a)
    requires a.MarkProcessed? ==> s.ingests[a.d].key !in s.processed
    ensures JobLost(Apply(cfg, s, a), k)
  {
    if !IngestAction(a) {
      EmbedsStartNoJob(cfg, s, a);
      hide Apply;
    } else {
      hide FreshIds, Stored, HasVectors, VectorKeyOf, RecordOf;
    }
  }

  lemma MarksOnlyNewKeys(cfg: Config, s: State, a: Action)
    requires Inv(s) && Enabled(cfg, s, a) && a.MarkProcessed?
    ensures s.ingests[a.d].key !in s.processed
  {
    assert IngestOk(s, s.ingests[a.d]);
  }

  lemma {:induction false} LostJobRun(cfg: Config, s: State, steps: seq<Action>, k: Key)
    requires cfg.oneIngestPerAsset && Inv(s) && JobLost(s, k) && Run(cfg, s, steps).Some?
    ensures var t := Run(cfg, s, steps).value; Inv(t) && JobLost(t, k)
    decreases |steps|
  {
    hide Inv, JobLost, Enabled, Apply;
    if steps != [] {
      StepKeepsInvariant(cfg, s, steps[0]);
      if steps[0].MarkProcessed? {
        MarksOnlyNewKeys(cfg, s, steps[0]);
      }
      LostJobStep(cfg, s, steps[0], k);
      LostJobRun(cfg, Apply(cfg, s, steps[0]), steps[1..], k);
    }
  }

  /** A worker that dies between marking and dispatching loses the embedding for good:
      no later step of any run sends the job or marks the asset embedded. */
  lemma LostJobsStayLost(cfg: Config, steps: seq<Action>, more: seq<Action>, k: Key)
    requires cfg.oneIngestPerAsset && Run(cfg, START, steps + more).Some?
    ensures Run(cfg, START, steps).Some?
    ensures JobLost(Run(cfg, START, steps).value, k) ==>
              var t := Run(cfg, START, steps + more).value; k !in t.jobs && k !in t.markers
  {
    RunAppend(cfg, START, steps, more);
    RunsKeepInvariant(cfg, START, steps);
    if JobLost(Run(cfg, START, steps).value, k) {
      LostJobRun(cfg, Run(cfg, START, steps).value, more, k);
    }
  }

  /** One more step of a run. */
  lemma Extend(cfg: Config, steps: seq<Action>, s: State, a: Action)
    requires Run(cfg, START, steps) == Some(s) && Enabled(cfg, s, a)
    ensures Run(cfg, START, steps + [a]) == Some(Apply(cfg, s, a))
  {
    RunAppend(cfg, START, steps, [a]);
    assert Run(cfg, s, [a]) == Run(cfg, Apply(cfg, s, a), [a][1..]);
  }

  /** A lost job is reachable with either chunk store: ingest an asset without chunks and
      die before dispatch. */
  lemma JobsCanBeLost(cfg: Config, k: Key)
    ensures exists steps :: Run(cfg, START, steps).Some? && JobLost(Run(cfg, START, steps).value, k)
  {
    var steps: seq<Action> := [];
    var s := START;
    steps, s := Then(cfg, steps, s, StartIngest(0, k));
    steps, s := Then(cfg, steps, s, CheckIngest(0));
    steps, s := Then(cfg, steps, s, CutChunks(0, []));
    if cfg.atomicSave {
      steps, s := Then(cfg, steps, s, SaveAtOnce(0));
    } else {
      steps, s := Then(cfg, steps, s, DeleteOld(0));
      steps, s := Then(cfg, steps, s, FinishInsert(0));
    }
    steps, s := Then(cfg, steps, s, MarkProcessed(0));
    steps, s := Then(cfg, steps, s, LoseIngest(0));
    assert JobLost(s, k);
  }

  lemma Then(cfg: Config, steps: seq<Action>, s: State, a: Action) returns (more: seq<Action>, t: State)
    requires Run(cfg, START, steps) == Some(s) && Enabled(cfg, s, a)
    ensures t == Apply(cfg, s, a) && Run(cfg, START, more) == Some(t)
  {
    Extend(cfg, steps, s, a);
    more, t := steps + [a], Apply(cfg, s, a);
  }

  /* ---------- two live ingests of one asset ---------- */

  /** Two ingests of `k` both pass the check. */
  lemma BothIngestsPass(cfg: Config, k: Key) returns (steps: seq<Action>, s: State)
    requires !cfg.oneIngestPerAsset
    ensures Run(cfg, START, steps) == Some(s)
    ensures s == START.(ingests := map[0 := IngestRun(k, Checked), 1 := IngestRun(k, Checked)])
  {
    steps, s := [], START;
    steps, s := Then(cfg, steps, s, StartIngest(0, k));
    steps, s := Then(cfg, steps, s, StartIngest(1, k));
    steps, s := Then(cfg, steps, s, CheckIngest(0));
    steps, s := Then(cfg, steps, s, CheckIngest(1));
  }

  /** Both cut the document. */
  lemma BothIngestsCut(cfg: Config, k: Key, first: Chunk, second: Chunk) returns (steps: seq<Action>, s: State)
    requires !cfg.oneIngestPerAsset && first.id != second.id
    ensures Run(cfg, START, steps) == Some(s)
    ensures s.ingests == map[0 := IngestRun(k, Chunked([first])), 1 := IngestRun(k, Chunked([second]))]
    ensures s.(ingests := map[], issued := {}) == START
  {
    steps, s := BothIngestsPass(cfg, k);
    steps, s := Then(cfg, steps, s, CutChunks(0, [first]));
    assert s.issued == {Issued(k, first)} && FreshIds(s, [second]);
    steps, s := Then(cfg, steps, s, CutChunks(1, [second]));
  }

  /** Saving a list of one chunk comes to the same, at once or in steps. */
  lemma SaveOne(cfg: Config, steps: seq<Action>, s: State, d: nat, k: Key, c: Chunk)
    returns (more: seq<Action>, t: State)
    requires Run(cfg, START, steps) == Some(s) && d in s.ingests && s.ingests[d] == IngestRun(k, Chunked([c]))
    ensures Run(cfg, START, more) == Some(t)
    ensures t == s.(ingests := s.ingests[d := IngestRun(k, Saved([c]))], stored := s.stored[k := [c]])
  {
    hide Run;
    if cfg.atomicSave {
      more, t := Then(cfg, steps, s, SaveAtOnce(d));
    } else {
      more, t := Then(cfg, steps, s, DeleteOld(d));
      assert Stored(t, k) == [] && [] + [c] == [c];
      more, t := Then(cfg, more, t, InsertNext(d));
      assert t.stored == s.stored[k := [c]];
      assert t.ingests == s.ingests[d := IngestRun(k, Inserting([c], 1))];
      more, t := Then(cfg, more, t, FinishInsert(d));
    }
  }

  /** The first ingest saves its list. */
  lemma FirstListIsSaved(cfg: Config, k: Key, first: Chunk, second: Chunk) returns (steps: seq<Action>, s: State)
    requires !cfg.oneIngestPerAsset && first.id != second.id
    ensures Run(cfg, START, steps) == Some(s)
    ensures s.ingests == map[0 := IngestRun(k, Saved([first])), 1 := IngestRun(k, Chunked([second]))]
    ensures s.(ingests := map[], issued := {}, stored := map[]) == START && s.stored == map[k := [first]]
  {
    steps, s := BothIngestsCut(cfg, k, first, second);
    steps, s := SaveOne(cfg, steps, s, 0, k, first);
  }

  /** The first ingest finishes. */
  lemma FirstIngestWins(cfg: Config, k: Key, first: Chunk, second: Chunk) returns (steps: seq<Action>, s: State)
    requires !cfg.oneIngestPerAsset && first.id != second.id
    ensures Run(cfg, START, steps) == Some(s)
    ensures s.ingests == map[1 := IngestRun(k, Chunked([second]))]
    ensures s.embeds == map[] && s.markers == map[] && s.vectors == map[]
    ensures s.stored == map[k := [first]] && s.jobs == {k}
  {
    steps, s := FirstListIsSaved(cfg, k, first, second);
    steps, s := Then(cfg, steps, s, MarkProcessed(0));
    steps, s := Then(cfg, steps, s, DispatchEmbed(0));
  }

  /** An embed delivery loads its list. */
  lemma FirstListIsLoaded(cfg: Config, k: Key, first: Chunk, second: Chunk) returns (steps: seq<Action>, s: State)
    requires !cfg.oneIngestPerAsset && first.id != second.id
    ensures Run(cfg, START, steps) == Some(s)
    ensures s.ingests == map[1 := IngestRun(k, Chunked([second]))]
    ensures s.embeds == map[0 := EmbedRun(k, Upserting([first], 0))]
    ensures s.markers == map[] && s.vectors == map[]
  {
    steps, s := FirstIngestWins(cfg, k, first, second);
    steps, s := Then(cfg, steps, s, StartEmbed(0, k));
    steps, s := Then(cfg, steps, s, CheckEmbed(0));
    steps, s := Then(cfg, steps, s, LoadChunks(0));
  }

  /** The list is embedded, the marker is set, and then the second ingest replaces the list
      or, with two-step saves, has only deleted it yet. */
  lemma SecondIngestReplaces(cfg: Config, k: Key, first: Chunk, second: Chunk) returns (steps: seq<Action>, s: State)
    requires !cfg.oneIngestPerAsset && first.id != second.id
    ensures Run(cfg, START, steps) == Some(s)
    ensures Stored(s, k) == (if cfg.atomicSave then [second] else [])
    ensures s.markers == map[k := 1] && s.vectors == map[VectorKeyOf(k, first) := RecordOf(k, first)]
  {
    steps, s := FirstListIsLoaded(cfg, k, first, second);
    steps, s := Then(cfg, steps, s, UpsertNext(0));
    steps, s := Then(cfg, steps, s, SaveVectors(0));
    steps, s := Then(cfg, steps, s, if cfg.atomicSave then SaveAtOnce(1) else DeleteOld(1));
  }

  /** Without the assumption of one live ingest per asset the marker does lie, with either
      chunk store, and the vector of a chunk that is no longer stored stays behind. */
  lemma RacingIngestsBreakTheMarker(cfg: Config, k: Key, first: Chunk, second: Chunk) returns (steps: seq<Action>)
    requires !cfg.oneIngestPerAsset && first.id != second.id
    ensures Run(cfg, START, steps).Some?
    ensures !MarkerIsTrue(Run(cfg, START, steps).value, k) && !NoStaleVectors(Run(cfg, START, steps).value)
  {
    var s;
    steps, s := SecondIngestReplaces(cfg, k, first, second);
    var v := VectorKeyOf(k, first);
    assert v in s.vectors && Key(s.vectors[v].asset, v.tenant) == k;
    assert cfg.atomicSave ==> second in Stored(s, k) && !Searchable(s, k, second);
    hide Run;
  }

  /** Markers are true in every reachable state exactly when no asset has two live ingests,
      and so it is with stale vectors; how lists are saved and what counts as embedded
      makes no difference. */
  lemma MarkersNeverLieExactlyWhen(cfg: Config)
    ensures (forall steps, k ::
               Run(cfg, START, steps).Some? ==> MarkerIsTrue(Run(cfg, START, steps).value, k)) <==>
            cfg.oneIngestPerAsset
    ensures (forall steps ::
               Run(cfg, START, steps).Some? ==> NoStaleVectors(Run(cfg, START, steps).value)) <==>
            cfg.oneIngestPerAsset
  {
    hide Run, MarkerIsTrue, NoStaleVectors;
    if cfg.oneIngestPerAsset {
      forall steps, k | Run(cfg, START, steps).Some?
        ensures MarkerIsTrue(Run(cfg, START, steps).value, k)
      {
        MarkersNeverLie(cfg, steps, k);
      }
      forall steps | Run(cfg, START, steps).Some?
        ensures NoStaleVectors(Run(cfg, START, steps).value)
      {
        MarkersNeverLie(cfg, steps, Key("", ""));
      }
    } else {
      var steps := RacingIngestsBreakTheMarker(cfg, Key("", ""), Chunk("0", "", None), Chunk("1", "", None));
    }
  }
}
