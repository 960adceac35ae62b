/**
 `ModelSelector`, `DegradedModeService` and `DegradedModeLLM` in
 src/infrastructure/generation/. What a provider replies, and when, is part of each
 request; so is the hash of a prompt.
 */
module LlmFallback {
  import opened Wrappers
  import opened CircuitBreakers
  import opened PythonText

  datatype Reply = Answer(text: string) | Raises

  /** What happens at one provider if the request gets there: the clock when its breaker
      is asked, what the provider replies, and the clock after that. */
  datatype Turn = Turn(ask: real, done: real, reply: Reply)

  function CallOf(t: Turn): Call { Call(t.ask, t.done, t.reply.Answer?) }

  /* ---------- the fallback as values ---------- */

  /** This provider gives the answer. */
  predicate Answers(l: Limits, b: Breaker, t: Turn) {
    !Open(l, b, t.ask) && t.reply.Answer?
  }

  function Select(l: Limits, bs: seq<Breaker>, turns: seq<Turn>): (r: (Option<string>, seq<Breaker>))
    requires |bs| == |turns|
    ensures |r.1| == |bs|
  {
    if bs == [] then (None, [])
    else
      var first := Step(l, bs[0], CallOf(turns[0]));
      if Answers(l, bs[0], turns[0]) then (Some(turns[0].reply.text), [first] + bs[1..])
      else
        var (answer, rest) := Select(l, bs[1..], turns[1..]);
        (answer, [first] + rest)
  }

  /** The index of the first provider that answers, or the number of providers. */
  function FirstAnswer(l: Limits, bs: seq<Breaker>, turns: seq<Turn>): (i: nat)
    requires |bs| == |turns|
    ensures i <= |bs| && (i < |bs| ==> Answers(l, bs[i], turns[i]))
  {
    if bs == [] || Answers(l, bs[0], turns[0]) then 0 else 1 + FirstAnswer(l, bs[1..], turns[1..])
  }

  /** The answer is that of the first provider whose breaker is closed and that does not
      raise. Breakers up to there saw the call; those after it are untouched. */
  lemma {:induction false} SelectTakesFirst(l: Limits, bs: seq<Breaker>, turns: seq<Turn>)
    requires |bs| == |turns|
    ensures var n := FirstAnswer(l, bs, turns);
            var (answer, after) := Select(l, bs, turns);
            && (forall i :: 0 <= i < n ==> !Answers(l, bs[i], turns[i]))
            && (n < |bs| ==> Answers(l, bs[n], turns[n]))
            && answer == (if n < |bs| then Some(turns[n].reply.text) else None)
            && (forall i :: 0 <= i < |bs| ==>
                  after[i] == if i <= n then Step(l, bs[i], CallOf(turns[i])) else bs[i])
  {
    hide Step, Answers;
    if bs != [] && !Answers(l, bs[0], turns[0]) {
      SelectTakesFirst(l, bs[1..], turns[1..]);
    }
  }

  /** What a provider's turn does to its breaker. */
  lemma SlotCases(l: Limits, b: Breaker, t: Turn)
    ensures Open(l, b, t.ask) ==> !Answers(l, b, t) && Step(l, b, CallOf(t)) == b == Asked(l, b, t.ask)
    ensures !Open(l, b, t.ask) && t.reply.Answer? ==> Answers(l, b, t) && Step(l, b, CallOf(t)) == FRESH
    ensures !Open(l, b, t.ask) && t.reply.Raises? ==>
              !Answers(l, b, t) && Step(l, b, CallOf(t)) == Failed(l, Asked(l, b, t.ask), t.done)
  {
  }

  /** Slot `j` is reached: no provider before it answers. */
  predicate Reached(l: Limits, bs: seq<Breaker>, turns: seq<Turn>, j: nat)
    requires |bs| == |turns|
  {
    j <= FirstAnswer(l, bs, turns)
  }

  /* ---------- the classes ---------- */

  class ModelSelector {
    const breakers: seq<CircuitBreaker>
    const limits: Limits

    constructor (names: seq<string>, limits: Limits)
      ensures Valid() && |breakers| == |names| && this.limits == limits
      ensures forall i :: 0 <= i < |breakers| ==> fresh(breakers[i]) && breakers[i].name == names[i]
      ensures States() == seq(|names|, _ => FRESH)
    {
      var slots: seq<CircuitBreaker> := [];
      for i := 0 to |names|
        invariant |slots| == i
        invariant forall j :: 0 <= j < i ==> fresh(slots[j]) && allocated(slots[j])
        invariant forall j :: 0 <= j < i ==> slots[j].limits == limits && slots[j].name == names[j]
        invariant forall j :: 0 <= j < i ==> slots[j].State() == FRESH
        invariant forall j, k :: 0 <= j < k < i ==> slots[j] != slots[k]
      {
        var breaker := new CircuitBreaker(names[i], limits);
        slots := slots + [breaker];
      }
      this.breakers := slots;
      this.limits := limits;
    }

    ghost predicate Valid() {
      && (forall i :: 0 <= i < |breakers| ==> breakers[i].limits == limits)
      && (forall i, j :: 0 <= i < j < |breakers| ==> breakers[i] != breakers[j])
    }

    function States(): (bs: seq<Breaker>)
      reads breakers
      ensures |bs| == |breakers|
    {
      seq(|breakers|, i requires 0 <= i < |breakers| reads breakers => breakers[i].State())
    }

    /** `None` stands for `LLMUnavailableError`. */
    method Complete(turns: seq<Turn>) returns (answer: Option<string>)
      requires Valid() && |turns| == |breakers|
      modifies breakers
      ensures (answer, States()) == Select(limits, old(States()), turns)
    {
      ghost var before := States();
      SelectTakesFirst(limits, before, turns);
      hide Select, FirstAnswer, Step, Answers, Open, Asked, Failed;
      for i := 0 to |breakers|
        invariant i <= FirstAnswer(limits, before, turns)
        invariant forall j :: 0 <= j < i ==> breakers[j].State() == Step(limits, before[j], CallOf(turns[j]))
        invariant forall j :: i <= j < |breakers| ==> breakers[j].State() == before[j]
      {
        SlotCases(limits, before[i], turns[i]);
        var open := breakers[i].IsOpen(turns[i].ask);
        if open {
          continue;
        }
        match turns[i].reply {
          case Answer(text) =>
            breakers[i].RecordSuccess();
            assert States() == Select(limits, before, turns).1;
            return Some(text);
          case Raises =>
            breakers[i].RecordFailure(turns[i].done);
        }
      }
      assert States() == Select(limits, before, turns).1;
      return None;
    }
  }

  /* ---------- degraded mode ---------- */

  const UNAVAILABLE_RESPONSE :=
    "{\"degraded\": true, \"cached_answer\": null, \"answer\": \"Service temporarily unavailable.\"}"

  /** SHA-256 of the UTF-8 text, in hex. */
  type Sha = string -> string

  function QueryHash(sha: Sha, prompt: string): string { sha(Strip(prompt)) }

  type Cache = map<string, string>

  /** Answer, breakers and cache after one request. */
  function Serve(l: Limits, bs: seq<Breaker>, cache: Cache, key: string, turns: seq<Turn>)
    : (r: (string, seq<Breaker>, Cache))
    requires |bs| == |turns|
    ensures |r.1| == |bs|
  {
    var (answer, after) := Select(l, bs, turns);
    if answer.Some? then (answer.value, after, cache[key := answer.value])
    else (if key in cache then cache[key] else UNAVAILABLE_RESPONSE, after, cache)
  }

  class DegradedModeService {
    const selector: ModelSelector
    var cache: Cache

    constructor (selector: ModelSelector, cache: Cache)
      ensures this.selector == selector && this.cache == cache
    {
      this.selector, this.cache := selector, cache;
    }

    method Complete(queryHash: string, turns: seq<Turn>) returns (answer: string)
      requires selector.Valid() && |turns| == |selector.breakers|
      modifies this, selector.breakers
      ensures (answer, selector.States(), cache) ==
              Serve(selector.limits, old(selector.States()), old(cache), queryHash, turns)
    {
      hide Select;
      var found := selector.Complete(turns);
      if found.Some? {
        SetCached(queryHash, found.value);
        return found.value;
      }
      var cached := GetCached(queryHash);
      answer := if cached.Some? then cached.value else UNAVAILABLE_RESPONSE;
    }

    method GetCached(queryHash: string) returns (answer: Option<string>)
      ensures answer == if queryHash in cache then Some(cache[queryHash]) else None
    {
      answer := if queryHash in cache then Some(cache[queryHash]) else None;
    }

    method SetCached(queryHash: string, answer: string)
      modifies this
      ensures cache == old(cache)[queryHash := answer]
    {
      cache := cache[queryHash := answer];
    }
  }

  class DegradedModeLLM {
    const service: DegradedModeService
    const sha: Sha

    constructor (service: DegradedModeService, sha: Sha)
      ensures this.service == service && this.sha == sha
    {
      this.service, this.sha := service, sha;
    }

    /** Always an answer: there is no outcome for an error. */
    method Complete(prompt: string, turns: seq<Turn>) returns (answer: string)
      requires service.selector.Valid() && |turns| == |service.selector.breakers|
      modifies service, service.selector.breakers
      ensures (answer, service.selector.States(), service.cache) ==
              Serve(service.selector.limits, old(service.selector.States()), old(service.cache),
                    QueryHash(sha, prompt), turns)
    {
      answer := service.Complete(QueryHash(sha, prompt), turns);
    }
  }

  /* ---------- whole runs ---------- */

  datatype Request = Request(prompt: string, turns: seq<Turn>)

  predicate Fit(n: nat, requests: seq<Request>) {
    forall i :: 0 <= i < |requests| ==> |requests[i].turns| == n
  }

  function BreakersAfter(l: Limits, bs: seq<Breaker>, requests: seq<Request>): (r: seq<Breaker>)
    requires Fit(|bs|, requests)
    ensures |r| == |bs|
    decreases |requests|
  {
    if requests == [] then bs
    else BreakersAfter(l, Select(l, bs, requests[0].turns).1, requests[1..])
  }

  function CacheAfter(l: Limits, sha: Sha, bs: seq<Breaker>, cache: Cache, requests: seq<Request>): Cache
    requires Fit(|bs|, requests)
    decreases |requests|
  {
    if requests == [] then cache
    else
      var r := Serve(l, bs, cache, QueryHash(sha, requests[0].prompt), requests[0].turns);
      CacheAfter(l, sha, r.1, r.2, requests[1..])
  }

  /** The fresh answer of each request, if some provider gave one. */
  function FreshAnswers(l: Limits, bs: seq<Breaker>, requests: seq<Request>): (r: seq<Option<string>>)
    requires Fit(|bs|, requests)
    ensures |r| == |requests|
    decreases |requests|
  {
    if requests == [] then []
    else
      var (answer, after) := Select(l, bs, requests[0].turns);
      [answer] + FreshAnswers(l, after, requests[1..])
  }

  /** The most recent fresh answer to a prompt with this key. */
  function LastFresh(sha: Sha, requests: seq<Request>, answers: seq<Option<string>>, key: string): Option<string>
    requires |requests| == |answers|
  {
    if requests == [] then None
    else
      var last := |requests| - 1;
      if QueryHash(sha, requests[last].prompt) == key && answers[last].Some? then answers[last]
      else LastFresh(sha, requests[..last], answers[..last], key)
  }

  lemma {:induction false} LastFreshFirst(sha: Sha, requests: seq<Request>, answers: seq<Option<string>>, key: string)
    requires |requests| == |answers| > 0
    ensures LastFresh(sha, requests, answers, key) ==
            var later := LastFresh(sha, requests[1..], answers[1..], key);
            if later.Some? then later
            else if QueryHash(sha, requests[0].prompt) == key then answers[0] else None
  {
    var last := |requests| - 1;
    hide QueryHash;
    if last > 0 {
      assert requests[1..][..last - 1] == requests[..last][1..];
      assert answers[1..][..last - 1] == answers[..last][1..];
      LastFreshFirst(sha, requests[..last], answers[..last], key);
    }
  }

  /** The cache holds the last fresh answer of each key, over what it started with. */
  lemma {:induction false} CacheIsHistory(l: Limits, sha: Sha, bs: seq<Breaker>, cache: Cache,
                                          requests: seq<Request>, key: string)
    requires Fit(|bs|, requests)
    ensures var last := LastFresh(sha, requests, FreshAnswers(l, bs, requests), key);
            var after := CacheAfter(l, sha, bs, cache, requests);
            && (last.Some? ==> key in after && after[key] == last.value)
            && (last.None? ==> (key in after <==> key in cache) && (key in cache ==> after[key] == cache[key]))
    decreases |requests|
  {
    hide Select, QueryHash, LastFresh;
    if requests == [] {
      NoneFresh(sha, key);
    } else {
      var r := Serve(l, bs, cache, QueryHash(sha, requests[0].prompt), requests[0].turns);
      assert Fit(|r.1|, requests[1..]);
      CacheIsHistory(l, sha, r.1, r.2, requests[1..], key);
      LastFreshFirst(sha, requests, FreshAnswers(l, bs, requests), key);
    }
  }

  lemma NoneFresh(sha: Sha, key: string)
    ensures LastFresh(sha, [], [], key) == None
  {
  }

  /** Every answer, after any run that starts with an empty cache: the fresh answer of the
      first provider that is closed and does not raise; failing that, the most recent
      fresh answer to the same key; failing that, the placeholder. */
  lemma AnswerIsFreshCachedOrPlaceholder(l: Limits, sha: Sha, bs: seq<Breaker>, requests: seq<Request>, next: Request)
    requires Fit(|bs|, requests) && |next.turns| == |bs|
    ensures var now := BreakersAfter(l, bs, requests);
            var key := QueryHash(sha, next.prompt);
            var answer := Serve(l, now, CacheAfter(l, sha, bs, map[], requests), key, next.turns).0;
            var first := FirstAnswer(l, now, next.turns);
            var last := LastFresh(sha, requests, FreshAnswers(l, bs, requests), key);
            answer ==
              if first < |bs| then next.turns[first].reply.text
              else if last.Some? then last.value
              else "{\"degraded\": true, \"cached_answer\": null, \"answer\": \"Service temporarily unavailable.\"}"
  {
    var now := BreakersAfter(l, bs, requests);
    var key := QueryHash(sha, next.prompt);
    CacheIsHistory(l, sha, bs, map[], requests, key);
    SelectTakesFirst(l, now, next.turns);
    hide Select, QueryHash, LastFresh, FirstAnswer, CacheAfter, BreakersAfter, FreshAnswers, Step;
  }

  /* ---------- the cache as prompts see it ---------- */

  ghost predicate Injective(sha: Sha) { forall a, b :: sha(a) == sha(b) ==> a == b }

  /** Prompts share a cache entry exactly when they are equal inside the white space at
      their ends. */
  lemma KeysAreStrippedPrompts(sha: Sha, front: string, prompt: string, back: string, other: string)
    requires Injective(sha) && AllSpaces(front) && AllSpaces(back)
    requires prompt == "" || (!IsSpace(prompt[0]) && !IsSpace(prompt[|prompt| - 1]))
    ensures QueryHash(sha, front + (prompt + back)) == sha(prompt)
    ensures QueryHash(sha, other) == sha(prompt) <==> Strip(other) == prompt
  {
    StripIs(front, prompt, back);
  }

  /** The most recent fresh answer to this prompt, white space at its ends aside. */
  function LastAnswerTo(requests: seq<Request>, answers: seq<Option<string>>, prompt: string): Option<string>
    requires |requests| == |answers|
  {
    if requests == [] then None
    else
      var last := |requests| - 1;
      if Strip(requests[last].prompt) == Strip(prompt) && answers[last].Some? then answers[last]
      else LastAnswerTo(requests[..last], answers[..last], prompt)
  }

  lemma {:induction false} SameLastAnswer(sha: Sha, requests: seq<Request>, answers: seq<Option<string>>,
                                           prompt: string)
    requires Injective(sha) && |requests| == |answers|
    ensures LastFresh(sha, requests, answers, QueryHash(sha, prompt)) == LastAnswerTo(requests, answers, prompt)
  {
    hide Strip;
    if requests != [] {
      var last := |requests| - 1;
      assert sha(Strip(requests[last].prompt)) == sha(Strip(prompt)) <==> Strip(requests[last].prompt) == Strip(prompt);
      SameLastAnswer(sha, requests[..last], answers[..last], prompt);
    }
  }

  /** So an answer is never one to another prompt: it is fresh, or the last fresh one to the
      same prompt, or says that there is none. */
  lemma AnswerIsToThePrompt(l: Limits, sha: Sha, bs: seq<Breaker>, requests: seq<Request>, next: Request)
    requires Injective(sha) && Fit(|bs|, requests) && |next.turns| == |bs|
    ensures var now := BreakersAfter(l, bs, requests);
            var cache := CacheAfter(l, sha, bs, map[], requests);
            var answer := Serve(l, now, cache, QueryHash(sha, next.prompt), next.turns).0;
            var first := FirstAnswer(l, now, next.turns);
            var last := LastAnswerTo(requests, FreshAnswers(l, bs, requests), next.prompt);
            answer ==
              if first < |bs| then next.turns[first].reply.text
              else if last.Some? then last.value
              else "{\"degraded\": true, \"cached_answer\": null, \"answer\": \"Service temporarily unavailable.\"}"
  {
    AnswerIsFreshCachedOrPlaceholder(l, sha, bs, requests, next);
    SameLastAnswer(sha, requests, FreshAnswers(l, bs, requests), next.prompt);
    hide Select, QueryHash, LastFresh, LastAnswerTo, FirstAnswer, CacheAfter, BreakersAfter, FreshAnswers, Serve;
  }

  /* ---------- each provider's breaker over a whole run ---------- */

  /** The calls that reach slot `j`. */
  function CallsAt(l: Limits, bs: seq<Breaker>, requests: seq<Request>, j: nat): seq<Call>
    requires Fit(|bs|, requests) && j < |bs|
    decreases |requests|
  {
    if requests == [] then []
    else
      var rest := CallsAt(l, Select(l, bs, requests[0].turns).1, requests[1..], j);
      if Reached(l, bs, requests[0].turns, j) then [CallOf(requests[0].turns[j])] + rest else rest
  }

  /** At each provider the clock does not run backwards. */
  predicate ClockRunsAt(requests: seq<Request>, j: nat)
    requires forall i :: 0 <= i < |requests| ==> j < |requests[i].turns|
  {
    && (forall i :: 0 <= i < |requests| ==> requests[i].turns[j].ask <= requests[i].turns[j].done)
    && (forall i, k :: 0 <= i < k < |requests| ==> requests[i].turns[j].done <= requests[k].turns[j].ask)
  }

  /** A provider's breaker goes through a run of its own, made of the calls that reach it. */
  lemma {:induction false} BreakerRunsAlone(l: Limits, bs: seq<Breaker>, requests: seq<Request>, j: nat)
    requires Fit(|bs|, requests) && j < |bs|
    ensures BreakersAfter(l, bs, requests)[j] == Run(l, bs[j], CallsAt(l, bs, requests, j))
    decreases |requests|
  {
    hide Select, Step, FirstAnswer;
    if requests != [] {
      SelectTakesFirst(l, bs, requests[0].turns);
      var after := Select(l, bs, requests[0].turns).1;
      BreakerRunsAlone(l, after, requests[1..], j);
      var rest := CallsAt(l, after, requests[1..], j);
      assert ([CallOf(requests[0].turns[j])] + rest)[1..] == rest;
    }
  }

  lemma {:induction false} CallsComeFromRequests(l: Limits, bs: seq<Breaker>, requests: seq<Request>, j: nat, c: Call)
    requires Fit(|bs|, requests) && j < |bs| && c in CallsAt(l, bs, requests, j)
    ensures exists i :: 0 <= i < |requests| && c == CallOf(requests[i].turns[j])
    decreases |requests|
  {
    hide Select, FirstAnswer;
    var after := Select(l, bs, requests[0].turns).1;
    if c in CallsAt(l, after, requests[1..], j) {
      CallsComeFromRequests(l, after, requests[1..], j, c);
      var i :| 0 <= i < |requests[1..]| && c == CallOf(requests[1..][i].turns[j]);
      assert requests[1 + i] == requests[1..][i];
    }
  }

  lemma {:induction false} CallsKeepTime(l: Limits, bs: seq<Breaker>, requests: seq<Request>, j: nat)
    requires Fit(|bs|, requests) && j < |bs| && ClockRunsAt(requests, j)
    ensures ClockRuns(CallsAt(l, bs, requests, j))
    decreases |requests|
  {
    hide Select, FirstAnswer;
    if requests != [] {
      var after := Select(l, bs, requests[0].turns).1;
      var rest := CallsAt(l, after, requests[1..], j);
      assert forall i :: 0 <= i < |requests[1..]| ==> requests[1..][i] == requests[i + 1];
      CallsKeepTime(l, after, requests[1..], j);
      forall i | 0 <= i < |rest| ensures requests[0].turns[j].done <= rest[i].ask {
        assert rest[i] in rest;
        CallsComeFromRequests(l, after, requests[1..], j, rest[i]);
      }
      hide CallsAt;
      assert forall i :: 1 <= i < |[CallOf(requests[0].turns[j])] + rest| ==>
          ([CallOf(requests[0].turns[j])] + rest)[i] == rest[i - 1];
    }
  }

  /** Over any run of requests, `ModelSelector` attempts each provider at most
      `max_failures` times in any window as long as the open time in which the provider
      does not succeed. */
  lemma AttemptsAreBounded(l: Limits, n: nat, requests: seq<Request>, j: nat, from: real)
    requires Fit(n, requests) && j < n && ClockRunsAt(requests, j)
    requires NoSuccess(l, FRESH, CallsAt(l, seq(n, _ => FRESH), requests, j), from, from + l.openDuration)
    ensures Attempts(l, FRESH, CallsAt(l, seq(n, _ => FRESH), requests, j), from, from + l.openDuration) <= Threshold(l)
  {
    var bs := seq(n, _ => FRESH);
    hide CallsAt, NoSuccess, Attempts, ClockRuns;
    CallsKeepTime(l, bs, requests, j);
    WindowBound(l, FRESH, CallsAt(l, bs, requests, j), from);
  }

  /** And at most `n` times as often over `n` such windows in a row. */
  lemma AttemptsAreBoundedOverWindows(l: Limits, slots: nat, requests: seq<Request>, j: nat, from: real, n: nat)
    requires Fit(slots, requests) && j < slots && ClockRunsAt(requests, j) && l.openDuration > 0.0
    requires NoSuccess(l, FRESH, CallsAt(l, seq(slots, _ => FRESH), requests, j), from, WindowsEnd(l, from, n))
    ensures Attempts(l, FRESH, CallsAt(l, seq(slots, _ => FRESH), requests, j), from, WindowsEnd(l, from, n))
            <= n * Threshold(l)
  {
    var bs := seq(slots, _ => FRESH);
    hide CallsAt, NoSuccess, Attempts, ClockRuns, WindowsEnd;
    CallsKeepTime(l, bs, requests, j);
    WindowsBound(l, FRESH, CallsAt(l, bs, requests, j), from, n);
  }

  /** And each breaker is open exactly when its count has reached the threshold. */
  lemma BreakersAreConsistent(l: Limits, n: nat, requests: seq<Request>, j: nat)
    requires Fit(n, requests) && j < n
    ensures Consistent(l, BreakersAfter(l, seq(n, _ => FRESH), requests)[j])
  {
    var bs := seq(n, _ => FRESH);
    BreakerRunsAlone(l, bs, requests, j);
    RunKeepsConsistent(l, FRESH, CallsAt(l, bs, requests, j));
  }
}
