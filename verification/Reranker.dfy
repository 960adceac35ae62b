/**
 `IdentityReranker` and `CrossEncoderReranker` (src/infrastructure/rag/reranker.py). The
 predictor and the remote endpoint are parameters.
 */
module Reranker {
  import opened Wrappers
  import opened Domain
  import opened Ranking

  /* ---------- what the endpoint sends ---------- */

  /** An entry of `results`: `None` stands for a value that does not convert. */
  datatype Item =
    | Scored(index: Option<int>, score: Option<real>)
    | Skipped    // not a dictionary, or without an index or a score

  /** `scores` and `results` of the payload, where they are lists. */
  datatype Payload = Payload(scores: Option<seq<Option<real>>>, results: Option<seq<Item>>)

  /** The scores as they come, where `None` is a value that does not convert. */
  datatype ScoreOutcome =
    | Scores(scores: seq<Option<real>>)
    | RuntimeFailure
    | OtherFailure

  datatype HttpReply = Json(payload: Payload) | HttpFailure

  datatype Scorer =
    | Predictor(predict: (string, seq<string>) -> ScoreOutcome)
    | Remote(post: (string, seq<string>) -> HttpReply)
    | Unconfigured

  /* ---------- reading scores ---------- */

  /** `[float(v) for v in values]`, or nothing when one does not convert. */
  function Floats(values: seq<Option<real>>): Option<seq<real>> {
    if values == [] then Some([])
    else
      match (values[0], Floats(values[1..]))
      case (Some(v), Some(rest)) => Some([v] + rest)
      case _ => None
  }

  datatype Indexed = Indexed(index: int, score: real)

  /** The index and score of every usable entry, or nothing when one does not convert. */
  function IndexedScores(items: seq<Item>): Option<seq<Indexed>> {
    if items == [] then Some([])
    else
      match (items[0], IndexedScores(items[1..]))
      case (Skipped, rest) => rest
      case (Scored(Some(i), Some(s)), Some(rest)) => Some([Indexed(i, s)] + rest)
      case _ => None
  }

  /** Sorting in ascending order is sorting in descending order of this. */
  function Position(x: Indexed): real { -(x.index as real) }

  function ScoresInOrder(xs: seq<Indexed>): seq<real> {
    var sorted := Ranked(xs, Position);
    seq(|sorted|, i requires 0 <= i < |sorted| => sorted[i].score)
  }

  function ParseScores(p: Payload, expected: nat): ScoreOutcome {
    match p.scores
    case Some(values) =>
      (match Floats(values)
       case None => OtherFailure
       case Some(scores) => if |scores| != expected then RuntimeFailure else Scores(Numbers(scores)))
    case None =>
      match p.results
      case None => RuntimeFailure
      case Some(items) =>
        match IndexedScores(items)
        case None => OtherFailure
        case Some(xs) => if |xs| != expected then RuntimeFailure else Scores(Numbers(ScoresInOrder(xs)))
  }

  function Numbers(vs: seq<real>): seq<Option<real>> {
    seq(|vs|, i requires 0 <= i < |vs| => Some(vs[i]))
  }

  function Contents(docs: seq<ScoredChunk>): seq<string> {
    seq(|docs|, i requires 0 <= i < |docs| => docs[i].content)
  }

  function Score(scorer: Scorer, query: string, docs: seq<ScoredChunk>): ScoreOutcome {
    match scorer
    case Predictor(predict) => predict(query, Contents(docs))
    case Unconfigured => RuntimeFailure
    case Remote(post) =>
      match post(query, Contents(docs))
      case HttpFailure => OtherFailure
      case Json(payload) => ParseScores(payload, |docs|)
  }

  /* ---------- reranking ---------- */

  function ScoreOf(c: ScoredChunk): real { c.score }

  function IdentityRerank(docs: seq<ScoredChunk>, topK: int): seq<ScoredChunk> {
    FirstK(Ranked(docs, ScoreOf), topK)
  }

  /** `CountMismatch` is the error of `zip(..., strict=True)` and `NotANumber` that of
      `float`, which nothing catches there. */
  datatype Outcome = Docs(docs: seq<ScoredChunk>) | CountMismatch | NotANumber

  /** Pairs documents with scores; whatever goes wrong first is raised. */
  function Rescored(docs: seq<ScoredChunk>, scores: seq<Option<real>>): Outcome {
    if docs == [] && scores == [] then Docs([])
    else if docs == [] || scores == [] then CountMismatch
    else
      match scores[0]
      case None => NotANumber
      case Some(v) =>
        match Rescored(docs[1..], scores[1..])
        case Docs(rest) => Docs([docs[0].(score := v)] + rest)
        case error => error
  }

  function Reranked(scorer: Scorer, query: string, docs: seq<ScoredChunk>, topK: int): Outcome {
    if docs == [] || topK <= 0 then Docs([])
    else
      match Score(scorer, query, docs)
      case RuntimeFailure => Docs(IdentityRerank(docs, topK))
      case OtherFailure => Docs(IdentityRerank(docs, topK))
      case Scores(scores) =>
        match Rescored(docs, scores)
        case Docs(rescored) => Docs(FirstK(Ranked(rescored, ScoreOf), topK))
        case error => error
  }

  class CrossEncoderReranker {
    const scorer: Scorer

    constructor (scorer: Scorer)
      ensures this.scorer == scorer
    {
      this.scorer := scorer;
    }

    /** No documents for none asked, the identity order when scoring fails, else the
        rescored documents ranked and cut. */
    method Rerank(query: string, docs: seq<ScoredChunk>, topK: int) returns (outcome: Outcome)
      ensures outcome == Reranked(scorer, query, docs, topK)
    {
      if docs == [] || topK <= 0 {
        return Docs([]);
      }
      var scored := Score(scorer, query, docs);
      match scored {
        case RuntimeFailure =>
          return Docs(IdentityRerank(docs, topK));
        case OtherFailure =>
          return Docs(IdentityRerank(docs, topK));
        case Scores(scores) =>
          var rescored := Rescored(docs, scores);
          match rescored {
            case Docs(docs) =>
              return Docs(FirstK(Ranked(docs, ScoreOf), topK));
            case error =>
              return error;
          }
      }
    }
  }

  lemma {:induction false} RescoredAt(docs: seq<ScoredChunk>, scores: seq<Option<real>>)
    ensures Rescored(docs, scores).Docs? <==> |docs| == |scores| && None !in scores
    ensures Rescored(docs, scores).Docs? ==>
              var rescored := Rescored(docs, scores).docs;
              && |rescored| == |docs|
              && forall i :: 0 <= i < |docs| ==> rescored[i] == docs[i].(score := scores[i].value)
    ensures Rescored(docs, scores).NotANumber? <==>
              None in scores[..if |docs| < |scores| then |docs| else |scores|]
  {
    if docs != [] && scores != [] {
      RescoredAt(docs[1..], scores[1..]);
      var n := if |docs| < |scores| then |docs| else |scores|;
      assert scores == [scores[0]] + scores[1..];
      assert scores[..n] == [scores[0]] + scores[1..][..n - 1];
    }
  }

  /** The endpoint's scores are numbers, one for each document, whatever it sends. */
  lemma RemoteScoresAreGood(scorer: Scorer, query: string, docs: seq<ScoredChunk>)
    requires scorer.Remote? && Score(scorer, query, docs).Scores?
    ensures |Score(scorer, query, docs).scores| == |docs| && None !in Score(scorer, query, docs).scores
  {
    match scorer.post(query, Contents(docs))
    case HttpFailure =>
    case Json(payload) =>
      if payload.scores.None? {
        ScoreCount(IndexedScores(payload.results.value).value);
      }
  }

  /** Reranking raises exactly when a predictor's scores are not one number for each
      document, and documents were asked for. */
  lemma RerankRaisesExactlyWhen(scorer: Scorer, query: string, docs: seq<ScoredChunk>, topK: int)
    ensures !Reranked(scorer, query, docs, topK).Docs? <==>
            docs != [] && topK > 0 && scorer.Predictor? && Score(scorer, query, docs).Scores? &&
            (|Score(scorer, query, docs).scores| != |docs| || None in Score(scorer, query, docs).scores)
  {
    if Score(scorer, query, docs).Scores? {
      RescoredAt(docs, Score(scorer, query, docs).scores);
      if scorer.Remote? {
        RemoteScoresAreGood(scorer, query, docs);
      }
    }
  }

  /* ---------- each document gets its own score ---------- */

  /** The indices are 0 to n - 1, each once, in any order. */
  predicate IsPermutation(xs: seq<Indexed>) {
    && (forall i :: 0 <= i < |xs| ==> 0 <= xs[i].index < |xs|)
    && (forall i, j :: 0 <= i < j < |xs| ==> xs[i].index != xs[j].index)
  }

  lemma {:induction false} TwiceMeansTwo<T>(xs: seq<T>, i: nat, j: nat)
    requires i < j < |xs| && xs[i] == xs[j]
    ensures multiset(xs)[xs[i]] >= 2
  {
    assert xs == xs[..j] + xs[j..];
    assert xs[i] in xs[..j] && xs[j] in xs[j..];
  }

  /** Sorting keeps the indices distinct. */
  lemma SortedStaysDistinct(xs: seq<Indexed>)
    requires IsPermutation(xs)
    ensures var sorted := Ranked(xs, Position);
            && |sorted| == |xs| && multiset(sorted) == multiset(xs)
            && forall i, j :: 0 <= i < j < |sorted| ==> sorted[i].index < sorted[j].index
  {
    var sorted := Ranked(xs, Position);
    RankedIsRanking(xs, Position);
    ValuesOfPermutation(sorted, xs, Position);
    assert |multiset(sorted)| == |multiset(xs)|;
    forall i, j | 0 <= i < j < |sorted| ensures sorted[i].index < sorted[j].index {
      assert Position(sorted[i]) >= Position(sorted[j]);
      if sorted[i].index == sorted[j].index {
        ValueAt(sorted, Position, i);
        ValueAt(sorted, Position, j);
        TwiceMeansTwo(Values(sorted, Position), i, j);
        PositionsDistinct(xs);
        DistinctCount(Values(xs, Position), Position(sorted[i]));
        assert false;
      }
    }
  }

  lemma PositionsDistinct(xs: seq<Indexed>)
    requires IsPermutation(xs)
    ensures Distinct(Values(xs, Position))
  {
    forall i, j | 0 <= i < j < |xs| ensures Values(xs, Position)[i] != Values(xs, Position)[j] {
      ValueAt(xs, Position, i);
      ValueAt(xs, Position, j);
    }
  }

  /** Increasing numbers from 0 to n - 1, n of them, are in their places. */
  lemma {:induction false} NoGaps(sorted: seq<Indexed>, i: nat)
    requires forall k :: 0 <= k < |sorted| ==> 0 <= sorted[k].index < |sorted|
    requires forall k, l :: 0 <= k < l < |sorted| ==> sorted[k].index < sorted[l].index
    requires i < |sorted|
    ensures sorted[i].index == i
  {
    AtLeast(sorted, i);
    AtMost(sorted, i);
  }

  lemma {:induction false} AtLeast(sorted: seq<Indexed>, i: nat)
    requires forall k :: 0 <= k < |sorted| ==> 0 <= sorted[k].index
    requires forall k, l :: 0 <= k < l < |sorted| ==> sorted[k].index < sorted[l].index
    requires i < |sorted|
    ensures sorted[i].index >= i
  {
    if i > 0 {
      AtLeast(sorted, i - 1);
    }
  }

  lemma {:induction false} AtMost(sorted: seq<Indexed>, i: nat)
    requires forall k :: 0 <= k < |sorted| ==> sorted[k].index < |sorted|
    requires forall k, l :: 0 <= k < l < |sorted| ==> sorted[k].index < sorted[l].index
    requires i < |sorted|
    ensures sorted[i].index <= i
    decreases |sorted| - i
  {
    if i + 1 < |sorted| {
      AtMost(sorted, i + 1);
    }
  }

  /** After sorting, the entry at position `i` is the entry of index `i`. */
  lemma SortedAt(xs: seq<Indexed>, i: nat)
    requires IsPermutation(xs) && i < |xs|
    ensures |Ranked(xs, Position)| == |xs|
    ensures Ranked(xs, Position)[i] in xs && Ranked(xs, Position)[i].index == i
  {
    var sorted := Ranked(xs, Position);
    SortedStaysDistinct(xs);
    hide Ranked;
    assert forall k :: 0 <= k < |sorted| ==> sorted[k] in multiset(sorted);
    assert forall k :: 0 <= k < |sorted| ==> sorted[k] in xs;
    NoGaps(sorted, i);
  }

  lemma ScoreCount(xs: seq<Indexed>)
    ensures |ScoresInOrder(xs)| == |xs|
  {
    RankedIsRanking(xs, Position);
    assert |multiset(Ranked(xs, Position))| == |multiset(xs)|;
  }

  /** When the indices are a permutation, the score at position `i` is the one that the
      response gives for index `i`, wherever it stands in the response. */
  lemma OwnScores(xs: seq<Indexed>, j: nat)
    requires IsPermutation(xs) && j < |xs|
    ensures |ScoresInOrder(xs)| == |xs| && ScoresInOrder(xs)[xs[j].index] == xs[j].score
  {
    SortedAt(xs, xs[j].index);
    SameIndexSameItem(xs, xs[j], Ranked(xs, Position)[xs[j].index]);
  }

  /** So the scores do not depend on the order of the response. */
  lemma OrderDoesNotMatter(xs: seq<Indexed>, ys: seq<Indexed>)
    requires IsPermutation(xs) && multiset(xs) == multiset(ys)
    ensures ScoresInOrder(xs) == ScoresInOrder(ys)
  {
    SamePermutation(xs, ys);
    ScoreCount(xs);
    ScoreCount(ys);
    forall i | 0 <= i < |xs| ensures ScoresInOrder(xs)[i] == ScoresInOrder(ys)[i] {
      SortedAt(xs, i);
      SortedAt(ys, i);
      assert Ranked(ys, Position)[i] in multiset(ys);
      SameIndexSameItem(xs, Ranked(xs, Position)[i], Ranked(ys, Position)[i]);
    }
  }

  lemma SameIndexSameItem(xs: seq<Indexed>, x: Indexed, y: Indexed)
    requires IsPermutation(xs) && x in multiset(xs) && y in multiset(xs) && x.index == y.index
    ensures x == y
  {
  }

  lemma SamePermutation(xs: seq<Indexed>, ys: seq<Indexed>)
    requires IsPermutation(xs) && multiset(xs) == multiset(ys)
    ensures IsPermutation(ys) && |xs| == |ys|
  {
    assert |multiset(xs)| == |xs| && |multiset(ys)| == |ys|;
    forall i | 0 <= i < |ys| ensures 0 <= ys[i].index < |ys| {
      assert ys[i] in multiset(xs);
      assert ys[i] in xs;
    }
    PositionsDistinct(xs);
    ValuesOfPermutation(xs, ys, Position);
    forall i, j | 0 <= i < j < |ys| ensures ys[i].index != ys[j].index {
      if ys[i].index == ys[j].index {
        ValueAt(ys, Position, i);
        ValueAt(ys, Position, j);
        TwiceMeansTwo(Values(ys, Position), i, j);
        DistinctCount(Values(xs, Position), Position(ys[i]));
        assert false;
      }
    }
  }

  /** The response gives usable scores `xs`, one for each document, under the indices 0 to
      n - 1. Entries that cannot be used may stand between them. */
  predicate Responds(scorer: Scorer, query: string, docs: seq<ScoredChunk>, xs: seq<Indexed>) {
    && scorer.Remote? && scorer.post(query, Contents(docs)).Json?
    && IsPermutation(xs) && |xs| == |docs|
    && var payload := scorer.post(query, Contents(docs)).payload;
       payload.scores.None? && payload.results.Some? && IndexedScores(payload.results.value) == Some(xs)
  }

  /** For every such response each document gets its own score, and the outcome is the
      stable descending order of those, cut to `topK`. */
  lemma RemoteRerankIsRanking(scorer: Scorer, query: string, docs: seq<ScoredChunk>, topK: int, xs: seq<Indexed>)
    returns (own: seq<ScoredChunk>, ranking: seq<ScoredChunk>)
    requires Responds(scorer, query, docs, xs) && docs != [] && topK > 0
    ensures |own| == |docs|
    ensures forall j :: 0 <= j < |xs| ==> own[xs[j].index] == docs[xs[j].index].(score := xs[j].score)
    ensures IsRanking(own, ranking, ScoreOf)
    ensures Reranked(scorer, query, docs, topK) == Docs(FirstK(ranking, topK))
  {
    var scores := Numbers(ScoresInOrder(xs));
    ScoreCount(xs);
    assert Score(scorer, query, docs) == Scores(scores);
    RescoredAt(docs, scores);
    own := Rescored(docs, scores).docs;
    ranking := Ranked(own, ScoreOf);
    RankedIsRanking(own, ScoreOf);
    forall j | 0 <= j < |xs| ensures own[xs[j].index] == docs[xs[j].index].(score := xs[j].score) {
      OwnScores(xs, j);
    }
  }

  /** And the outcome does not depend on the order of the response items. */
  lemma ResponseOrderDoesNotMatter(scorer: Scorer, other: Scorer, query: string, docs: seq<ScoredChunk>, topK: int,
                                   xs: seq<Indexed>, ys: seq<Indexed>)
    requires Responds(scorer, query, docs, xs) && Responds(other, query, docs, ys) && multiset(xs) == multiset(ys)
    ensures Reranked(scorer, query, docs, topK) == Reranked(other, query, docs, topK)
  {
    OrderDoesNotMatter(xs, ys);
  }

  /* ---------- scores in order, and no scores ---------- */

  /** `texts` are the contents of the documents, one by one. */
  predicate AreContents(texts: seq<string>, docs: seq<ScoredChunk>) {
    |texts| == |docs| && forall i :: 0 <= i < |docs| ==> texts[i] == docs[i].content
  }

  lemma {:induction false} FloatsAre(values: seq<Option<real>>)
    ensures Floats(values).Some? <==> None !in values
    ensures Floats(values).Some? ==>
              |Floats(values).value| == |values| && Numbers(Floats(values).value) == values
  {
    if values != [] {
      FloatsAre(values[1..]);
      assert values == [values[0]] + values[1..];
    }
  }

  /** The scorer, handed the query and the contents, gives one number for each document: a
      predictor as it returns them, the endpoint as its list of scores. */
  predicate Gives(scorer: Scorer, query: string, texts: seq<string>, values: seq<Option<real>>) {
    match scorer
    case Predictor(predict) => predict(query, texts) == ScoreOutcome.Scores(values)
    case Remote(post) =>
      post(query, texts).Json? && post(query, texts).payload.scores == Some(values)
    case Unconfigured => false
  }

  /** Document `i` gets the entry at `i`, and the outcome is the stable descending order of
      the documents with these scores, cut to `topK`. */
  lemma ScoresGoInOrder(scorer: Scorer, query: string, docs: seq<ScoredChunk>, topK: int, texts: seq<string>,
                        values: seq<Option<real>>)
    returns (own: seq<ScoredChunk>, ranking: seq<ScoredChunk>)
    requires AreContents(texts, docs) && Gives(scorer, query, texts, values) && docs != [] && topK > 0
    requires |values| == |docs| && None !in values
    ensures |own| == |docs| && forall i :: 0 <= i < |docs| ==> own[i] == docs[i].(score := values[i].value)
    ensures IsRanking(own, ranking, ScoreOf)
    ensures Reranked(scorer, query, docs, topK) == Docs(FirstK(ranking, topK))
  {
    assert Contents(docs) == texts;
    FloatsAre(values);
    assert Score(scorer, query, docs) == ScoreOutcome.Scores(values);
    RescoredAt(docs, values);
    own := Rescored(docs, values).docs;
    ranking := Ranked(own, ScoreOf);
    RankedIsRanking(own, ScoreOf);
  }

  /** No scorer, an endpoint that fails or answers without scores for all documents, or a
      predictor that raises. */
  predicate Fails(scorer: Scorer, query: string, texts: seq<string>) {
    match scorer
    case Unconfigured => true
    case Predictor(predict) => !predict(query, texts).Scores?
    case Remote(post) =>
      match post(query, texts)
      case HttpFailure => true
      case Json(payload) =>
        match payload.scores
        case Some(values) => None in values || |values| != |texts|
        case None => payload.results.None?
  }

  /** Then the documents come in the stable descending order of the scores they came with,
      cut to `topK`. */
  lemma WithoutScoresOrderStays(scorer: Scorer, query: string, docs: seq<ScoredChunk>, topK: int, texts: seq<string>)
    returns (ranking: seq<ScoredChunk>)
    requires AreContents(texts, docs) && Fails(scorer, query, texts) && topK > 0
    ensures IsRanking(docs, ranking, (c: ScoredChunk) => c.score)
    ensures Reranked(scorer, query, docs, topK) == Docs(FirstK(ranking, topK))
  {
    assert Contents(docs) == texts;
    ranking := Ranked(docs, ScoreOf);
    RankedIsRanking(docs, ScoreOf);
    SameRanking(docs, ranking);
    if scorer.Remote? && scorer.post(query, texts).Json? && scorer.post(query, texts).payload.scores.Some? {
      FloatsAre(scorer.post(query, texts).payload.scores.value);
    }
  }

  lemma {:induction false} SameKeys(xs: seq<ScoredChunk>, v: real)
    ensures WithKey(xs, ScoreOf, v) == WithKey(xs, (c: ScoredChunk) => c.score, v)
  {
    if xs != [] {
      SameKeys(xs[1..], v);
    }
  }

  lemma SameRanking(xs: seq<ScoredChunk>, ys: seq<ScoredChunk>)
    requires IsRanking(xs, ys, ScoreOf)
    ensures IsRanking(xs, ys, (c: ScoredChunk) => c.score)
  {
    var key := (c: ScoredChunk) => c.score;
    forall v ensures WithKey(ys, key, v) == WithKey(xs, key, v) {
      SameKeys(xs, v);
      SameKeys(ys, v);
    }
    assert forall i, j :: 0 <= i < j < |ys| ==> ScoreOf(ys[i]) >= ScoreOf(ys[j]);
  }

  /** What one result gives: nothing when it is skipped, its index and score when they
      convert, and no scores at all for the whole list when they do not. */
  function ReadItem(item: Item): Option<seq<Indexed>> {
    match item
    case Skipped => Some([])
    case Scored(Some(i), Some(s)) => Some([Indexed(i, s)])
    case _ => None
  }

  function Both(a: Option<seq<Indexed>>, b: Option<seq<Indexed>>): Option<seq<Indexed>> {
    if a.Some? && b.Some? then Some(a.value + b.value) else None
  }

  lemma ReadFirst(items: seq<Item>)
    requires items != []
    ensures IndexedScores(items) == Both(ReadItem(items[0]), IndexedScores(items[1..]))
  {
    if items[0].Skipped? && IndexedScores(items[1..]).Some? {
      assert [] + IndexedScores(items[1..]).value == IndexedScores(items[1..]).value;
    }
  }

  /** The list of results is read item by item. */
  lemma {:induction false} ResultsAreRead(a: seq<Item>, item: Item, b: seq<Item>)
    ensures IndexedScores([]) == Some([])
    ensures IndexedScores(a + ([item] + b)) == Both(IndexedScores(a), Both(ReadItem(item), IndexedScores(b)))
    decreases |a|
  {
    var items := a + ([item] + b);
    var rest := Both(ReadItem(item), IndexedScores(b));
    hide ReadItem;
    if a == [] {
      assert items == [item] + b && items[1..] == b;
      ReadFirst(items);
      assert rest.Some? ==> [] + rest.value == rest.value;
    } else {
      assert items[0] == a[0] && items[1..] == a[1..] + ([item] + b);
      ReadFirst(items);
      ReadFirst(a);
      hide IndexedScores;
      ResultsAreRead(a[1..], item, b);
      BothAssociates(ReadItem(a[0]), IndexedScores(a[1..]), rest);
    }
  }

  lemma BothAssociates(a: Option<seq<Indexed>>, b: Option<seq<Indexed>>, c: Option<seq<Indexed>>)
    ensures Both(Both(a, b), c) == Both(a, Both(b, c))
  {
    if a.Some? && b.Some? && c.Some? {
      assert (a.value + b.value) + c.value == a.value + (b.value + c.value);
    }
  }

  lemma NothingForNothing(scorer: Scorer, query: string, docs: seq<ScoredChunk>, topK: int)
    requires docs == [] || topK <= 0
    ensures Reranked(scorer, query, docs, topK) == Docs([])
  {
  }
}
