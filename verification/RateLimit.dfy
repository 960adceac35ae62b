/**
 `RateLimitMiddleware` (src/middleware/RateLimitMiddleware.py): two sliding-window
 counters, by user and by address. The clock readings are part of the request.
 */
module RateLimit {
  import opened Wrappers
  import opened PythonText

  const USER_LIMIT_PER_MIN := 60
  const IP_LIMIT_PER_MIN := 200
  const WINDOW_SECONDS := 60.0

  /* ---------- counters ---------- */

  /** `[t for t in hits if t >= start]`. */
  function Recent(hits: seq<real>, start: real): (r: seq<real>)
    ensures |r| <= |hits|
  {
    if hits == [] then []
    else if hits[|hits| - 1] >= start then Recent(hits[..|hits| - 1], start) + [hits[|hits| - 1]]
    else Recent(hits[..|hits| - 1], start)
  }

  type Counts = map<string, seq<real>>

  function HitsOf(counts: Counts, key: string): seq<real> {
    if key in counts then counts[key] else []
  }

  /** The hits that a counter keeps for a key after a hit at `now`. */
  function Kept(counts: Counts, key: string, now: real): seq<real> {
    Recent(HitsOf(counts, key), now - WINDOW_SECONDS) + [now]
  }

  class WindowCounter {
    var counts: Counts

    constructor ()
      ensures counts == map[]
    {
      counts := map[];
    }

    method Increment(key: string, now: real) returns (n: nat)
      modifies this
      ensures counts == old(counts)[key := Kept(old(counts), key, now)]
      ensures n == |Kept(old(counts), key, now)|
    {
      var windowStart := now - WINDOW_SECONDS;
      var hits := HitsOf(counts, key);
      counts := counts[key := Recent(hits, windowStart)];
      counts := counts[key := counts[key] + [now]];
      n := |counts[key]|;
    }
  }

  /* ---------- requests ---------- */

  datatype Request = Request(
    path: string, stateUserId: string, userHeader: Option<string>, forwardedFor: string, host: Option<string>,
    userNow: real, ipNow: real)

  function FirstPart(s: string): string {
    if s == "" || s[0] == ',' then "" else [s[0]] + FirstPart(s[1..])
  }

  function UserKey(r: Request): string {
    if r.stateUserId != "" then r.stateUserId
    else match r.userHeader
         case Some(h) => h
         case None => "anonymous"
  }

  function IpKey(r: Request): string {
    var forwarded := Strip(FirstPart(r.forwardedFor));
    if forwarded != "" then forwarded
    else match r.host
         case Some(h) => h
         case None => "unknown"
  }

  predicate Unthrottled(r: Request) { r.path == "/health" || r.path == "/metrics" }

  datatype Verdict = Exempt | UserLimited | IpLimited | Passed

  /* ---------- the decision ---------- */

  datatype State = State(user: Counts, ip: Counts)

  const EMPTY := State(map[], map[])

  function Decide(s: State, r: Request): (State, Verdict) {
    if Unthrottled(r) then (s, Exempt)
    else
      var user := Kept(s.user, UserKey(r), r.userNow);
      var counted := s.(user := s.user[UserKey(r) := user]);
      if |user| > USER_LIMIT_PER_MIN then (counted, UserLimited)
      else
        var ip := Kept(s.ip, IpKey(r), r.ipNow);
        (counted.(ip := s.ip[IpKey(r) := ip]), if |ip| > IP_LIMIT_PER_MIN then IpLimited else Passed)
  }

  /** With one counter injected for both roles, a user and an address of the same name
      share their hits. */
  function DecideShared(counts: Counts, r: Request): (Counts, Verdict) {
    if Unthrottled(r) then (counts, Exempt)
    else
      var counted := counts[UserKey(r) := Kept(counts, UserKey(r), r.userNow)];
      if |counted[UserKey(r)]| > USER_LIMIT_PER_MIN then (counted, UserLimited)
      else
        var both := counted[IpKey(r) := Kept(counted, IpKey(r), r.ipNow)];
        (both, if |both[IpKey(r)]| > IP_LIMIT_PER_MIN then IpLimited else Passed)
  }

  class RateLimitMiddleware {
    const userCounter: WindowCounter
    const ipCounter: WindowCounter

    constructor (userCounter: WindowCounter, ipCounter: WindowCounter)
      ensures this.userCounter == userCounter && this.ipCounter == ipCounter
    {
      this.userCounter, this.ipCounter := userCounter, ipCounter;
    }

    /** The user's limit is checked first, and only a request within it counts against
        its address. */
    method Dispatch(r: Request) returns (verdict: Verdict)
      modifies userCounter, ipCounter
      ensures userCounter != ipCounter ==>
                (State(userCounter.counts, ipCounter.counts), verdict) ==
                Decide(State(old(userCounter.counts), old(ipCounter.counts)), r)
      ensures userCounter == ipCounter ==> (userCounter.counts, verdict) == DecideShared(old(userCounter.counts), r)
    {
      if r.path == "/health" || r.path == "/metrics" {
        return Exempt;
      }
      var userCount := userCounter.Increment(UserKey(r), r.userNow);
      if userCount > USER_LIMIT_PER_MIN {
        return UserLimited;
      }
      var ipCount := ipCounter.Increment(IpKey(r), r.ipNow);
      if ipCount > IP_LIMIT_PER_MIN {
        return IpLimited;
      }
      return Passed;
    }
  }

  /* ---------- counting the whole history instead ---------- */

  /** The same decision by a limiter that never forgets a hit. */
  function DecideByHistory(h: State, r: Request): (State, Verdict) {
    if Unthrottled(r) then (h, Exempt)
    else
      var userHits, ipHits := HitsOf(h.user, UserKey(r)) + [r.userNow], HitsOf(h.ip, IpKey(r)) + [r.ipNow];
      var counted := h.(user := h.user[UserKey(r) := userHits]);
      if |Recent(userHits, r.userNow - WINDOW_SECONDS)| > USER_LIMIT_PER_MIN then (counted, UserLimited)
      else
        (counted.(ip := h.ip[IpKey(r) := ipHits]),
         if |Recent(ipHits, r.ipNow - WINDOW_SECONDS)| > IP_LIMIT_PER_MIN then IpLimited else Passed)
  }

  function Verdicts(s: State, rs: seq<Request>): seq<Verdict>
    decreases |rs|
  {
    if rs == [] then [] else [Decide(s, rs[0]).1] + Verdicts(Decide(s, rs[0]).0, rs[1..])
  }

  function VerdictsByHistory(h: State, rs: seq<Request>): seq<Verdict>
    decreases |rs|
  {
    if rs == [] then [] else [DecideByHistory(h, rs[0]).1] + VerdictsByHistory(DecideByHistory(h, rs[0]).0, rs[1..])
  }

  /** Neither clock runs backwards, nor behind `now`. */
  predicate ClockRuns(rs: seq<Request>, now: real) {
    rs == [] || (now <= rs[0].userNow <= rs[0].ipNow && ClockRuns(rs[1..], rs[0].ipNow))
  }

  /** `kept` is the history without some hits that are out of every later window. */
  ghost predicate IsTrimmed(kept: seq<real>, history: seq<real>, now: real) {
    exists start: real :: start <= now - WINDOW_SECONDS && kept == Recent(history, start)
  }

  ghost predicate AllTrimmed(s: Counts, h: Counts, now: real) {
    forall key :: IsTrimmed(HitsOf(s, key), HitsOf(h, key), now)
  }

  ghost predicate Trimmed(s: State, h: State, now: real) {
    AllTrimmed(s.user, h.user, now) && AllTrimmed(s.ip, h.ip, now)
  }

  lemma {:induction false} RecentTwice(hits: seq<real>, a: real, b: real)
    requires a <= b
    ensures Recent(Recent(hits, a), b) == Recent(hits, b)
  {
    if hits != [] {
      var init, last := hits[..|hits| - 1], hits[|hits| - 1];
      RecentTwice(init, a, b);
      assert (Recent(init, a) + [last])[..|Recent(init, a)|] == Recent(init, a);
    }
  }

  lemma RecentOfHit(hits: seq<real>, now: real, start: real)
    requires start <= now
    ensures Recent(hits + [now], start) == Recent(hits, start) + [now]
  {
    assert (hits + [now])[..|hits|] == hits;
  }

  /** A hit at `now` leaves what a look at the whole history would keep. */
  lemma HitKeepsTrimmed(kept: seq<real>, history: seq<real>, was: real, now: real)
    requires IsTrimmed(kept, history, was) && was <= now
    ensures var start := now - WINDOW_SECONDS;
            Recent(kept, start) + [now] == Recent(history + [now], start)
    ensures IsTrimmed(Recent(kept, now - WINDOW_SECONDS) + [now], history + [now], now)
  {
    var start: real :| start <= was - WINDOW_SECONDS && kept == Recent(history, start);
    RecentTwice(history, start, now - WINDOW_SECONDS);
    RecentOfHit(history, now, now - WINDOW_SECONDS);
  }

  lemma TrimmedLater(s: Counts, h: Counts, was: real, now: real)
    requires AllTrimmed(s, h, was) && was <= now
    ensures AllTrimmed(s, h, now)
  {
  }

  lemma StepForgetsNothing(s: State, h: State, r: Request, was: real)
    requires Trimmed(s, h, was) && was <= r.userNow <= r.ipNow
    ensures Decide(s, r).1 == DecideByHistory(h, r).1
    ensures Trimmed(Decide(s, r).0, DecideByHistory(h, r).0, r.ipNow)
  {
    hide Recent, IsTrimmed, UserKey, IpKey;
    TrimmedLater(s.user, h.user, was, r.ipNow);
    TrimmedLater(s.ip, h.ip, was, r.ipNow);
    if !Unthrottled(r) {
      HitStaysTrimmed(s.user, h.user, UserKey(r), was, r.userNow);
      TrimmedLater(s.user[UserKey(r) := Kept(s.user, UserKey(r), r.userNow)],
                   h.user[UserKey(r) := HitsOf(h.user, UserKey(r)) + [r.userNow]], r.userNow, r.ipNow);
      HitStaysTrimmed(s.ip, h.ip, IpKey(r), was, r.ipNow);
    }
  }

  /** One hit, counted from what was kept and from the whole history. */
  lemma HitStaysTrimmed(s: Counts, h: Counts, key: string, was: real, now: real)
    requires AllTrimmed(s, h, was) && was <= now
    ensures |Kept(s, key, now)| == |Recent(HitsOf(h, key) + [now], now - WINDOW_SECONDS)|
    ensures AllTrimmed(s[key := Kept(s, key, now)], h[key := HitsOf(h, key) + [now]], now)
  {
    HitKeepsTrimmed(HitsOf(s, key), HitsOf(h, key), was, now);
    TrimmedLater(s, h, was, now);
    var t, g := s[key := Kept(s, key, now)], h[key := HitsOf(h, key) + [now]];
    hide IsTrimmed, Recent;
    forall k ensures IsTrimmed(HitsOf(t, k), HitsOf(g, k), now) {
      assert IsTrimmed(HitsOf(s, k), HitsOf(h, k), now);
    }
  }

  lemma {:induction false} RunForgetsNothing(s: State, h: State, rs: seq<Request>, now: real)
    requires Trimmed(s, h, now) && ClockRuns(rs, now)
    ensures Verdicts(s, rs) == VerdictsByHistory(h, rs)
    decreases |rs|
  {
    hide Trimmed, Decide, DecideByHistory;
    if rs != [] {
      StepForgetsNothing(s, h, rs[0], now);
      RunForgetsNothing(Decide(s, rs[0]).0, DecideByHistory(h, rs[0]).0, rs[1..], rs[0].ipNow);
    }
  }

  /** Forgetting old hits never changes a verdict. */
  lemma EvictionIsInvisible(rs: seq<Request>, now: real)
    requires ClockRuns(rs, now)
    ensures Verdicts(EMPTY, rs) == VerdictsByHistory(EMPTY, rs)
  {
    assert Recent([], now - WINDOW_SECONDS) == [];
    RunForgetsNothing(EMPTY, EMPTY, rs, now);
  }

  /* ---------- how many pass ---------- */

  predicate Within(t: real, from: real) { from <= t <= from + 60.0 }

  /** The requests of this user that pass the user's limit in the interval. */
  function UserPasses(rs: seq<Request>, verdicts: seq<Verdict>, user: string, from: real): nat
    requires |rs| == |verdicts|
  {
    if rs == [] then 0
    else
      (if (verdicts[0].Passed? || verdicts[0].IpLimited?) && UserKey(rs[0]) == user && Within(rs[0].userNow, from)
       then 1 else 0)
        + UserPasses(rs[1..], verdicts[1..], user, from)
  }

  /** The requests from this address that pass in the interval. */
  function IpPasses(rs: seq<Request>, verdicts: seq<Verdict>, ip: string, from: real): nat
    requires |rs| == |verdicts|
  {
    if rs == [] then 0
    else
      (if verdicts[0].Passed? && IpKey(rs[0]) == ip && Within(rs[0].ipNow, from) then 1 else 0)
        + IpPasses(rs[1..], verdicts[1..], ip, from)
  }

  lemma {:induction false} VerdictPerRequest(s: State, rs: seq<Request>)
    ensures |Verdicts(s, rs)| == |rs|
    decreases |rs|
  {
    if rs != [] {
      VerdictPerRequest(Decide(s, rs[0]).0, rs[1..]);
    }
  }

  lemma {:induction false} VerdictPerRequestByHistory(h: State, rs: seq<Request>)
    ensures |VerdictsByHistory(h, rs)| == |rs|
    decreases |rs|
  {
    if rs != [] {
      VerdictPerRequestByHistory(DecideByHistory(h, rs[0]).0, rs[1..]);
    }
  }

  lemma {:induction false} RecentGrows(hits: seq<real>, a: real, b: real)
    requires a <= b
    ensures |Recent(hits, b)| <= |Recent(hits, a)|
  {
    if hits != [] {
      RecentGrows(hits[..|hits| - 1], a, b);
    }
  }

  lemma RecentNext(hits: seq<real>, t: real, from: real)
    ensures |Recent(hits + [t], from)| == |Recent(hits, from)| + if t >= from then 1 else 0
  {
    assert (hits + [t])[..|hits|] == hits;
  }

  /** With `n` passed so far, no more than there are hits in the interval. */
  lemma {:induction false} UserPassesFrom(h: State, rs: seq<Request>, user: string, from: real, n: nat)
    requires n <= USER_LIMIT_PER_MIN && n <= |Recent(HitsOf(h.user, user), from)|
    requires |VerdictsByHistory(h, rs)| == |rs|
    ensures n + UserPasses(rs, VerdictsByHistory(h, rs), user, from) <= USER_LIMIT_PER_MIN
    decreases |rs|
  {
    hide Recent, UserKey, IpKey;
    if rs != [] {
      var r := rs[0];
      var (next, verdict) := DecideByHistory(h, r);
      var hits := HitsOf(h.user, user);
      var passed := (verdict.Passed? || verdict.IpLimited?) && UserKey(r) == user && Within(r.userNow, from);
      RecentNext(hits, r.userNow, from);
      if passed {
        RecentGrows(hits + [r.userNow], r.userNow - WINDOW_SECONDS, from);
      }
      assert VerdictsByHistory(h, rs)[1..] == VerdictsByHistory(next, rs[1..]);
      UserPassesFrom(next, rs[1..], user, from, if passed then n + 1 else n);
    }
  }

  lemma {:induction false} IpPassesFrom(h: State, rs: seq<Request>, ip: string, from: real, n: nat)
    requires n <= IP_LIMIT_PER_MIN && n <= |Recent(HitsOf(h.ip, ip), from)|
    requires |VerdictsByHistory(h, rs)| == |rs|
    ensures n + IpPasses(rs, VerdictsByHistory(h, rs), ip, from) <= IP_LIMIT_PER_MIN
    decreases |rs|
  {
    hide Recent, UserKey, IpKey;
    if rs != [] {
      var r := rs[0];
      var (next, verdict) := DecideByHistory(h, r);
      var hits := HitsOf(h.ip, ip);
      var passed := verdict.Passed? && IpKey(r) == ip && Within(r.ipNow, from);
      RecentNext(hits, r.ipNow, from);
      if passed {
        RecentGrows(hits + [r.ipNow], r.ipNow - WINDOW_SECONDS, from);
      }
      assert VerdictsByHistory(h, rs)[1..] == VerdictsByHistory(next, rs[1..]);
      IpPassesFrom(next, rs[1..], ip, from, if passed then n + 1 else n);
    }
  }

  /** Over any run, in any closed interval of sixty seconds at most 60 requests pass the
      limit of a user, and at most 200 requests from an address pass at all. */
  lemma PassesAreBounded(rs: seq<Request>, now: real, key: string, from: real)
    requires ClockRuns(rs, now)
    ensures |Verdicts(EMPTY, rs)| == |rs|
    ensures UserPasses(rs, Verdicts(EMPTY, rs), key, from) <= 60
    ensures IpPasses(rs, Verdicts(EMPTY, rs), key, from) <= 200
  {
    VerdictPerRequest(EMPTY, rs);
    EvictionIsInvisible(rs, now);
    UserPassesFrom(EMPTY, rs, key, from, 0);
    IpPassesFrom(EMPTY, rs, key, from, 0);
  }

  /* ---------- every verdict, by counting requests ---------- */

  /** The requests of this user since `from` that were counted: all but the exempt ones. */
  function UserHits(rs: seq<Request>, verdicts: seq<Verdict>, user: string, from: real): nat
    requires |rs| == |verdicts|
  {
    if rs == [] then 0
    else
      var last := |rs| - 1;
      UserHits(rs[..last], verdicts[..last], user, from)
        + if !verdicts[last].Exempt? && UserKey(rs[last]) == user && rs[last].userNow >= from then 1 else 0
  }

  /** The requests from this address since `from` that were counted: those within their
      user's limit. */
  function IpHits(rs: seq<Request>, verdicts: seq<Verdict>, ip: string, from: real): nat
    requires |rs| == |verdicts|
  {
    if rs == [] then 0
    else
      var last := |rs| - 1;
      IpHits(rs[..last], verdicts[..last], ip, from)
        + if (verdicts[last].IpLimited? || verdicts[last].Passed?) && IpKey(rs[last]) == ip && rs[last].ipNow >= from
          then 1 else 0
  }

  /** The history after a run. */
  function History(h: State, rs: seq<Request>): State
    decreases |rs|
  {
    if rs == [] then h else History(DecideByHistory(h, rs[0]).0, rs[1..])
  }

  lemma {:induction false} HistoryNext(h: State, rs: seq<Request>, r: Request)
    ensures History(h, rs + [r]) == DecideByHistory(History(h, rs), r).0
    ensures VerdictsByHistory(h, rs + [r]) == VerdictsByHistory(h, rs) + [DecideByHistory(History(h, rs), r).1]
    decreases |rs|
  {
    hide DecideByHistory;
    if rs == [] {
      assert rs + [r] == [r] && [r][1..] == [];
    } else {
      assert (rs + [r])[1..] == rs[1..] + [r];
      HistoryNext(DecideByHistory(h, rs[0]).0, rs[1..], r);
    }
  }

  lemma UserHitCounts(h: State, r: Request, key: string, from: real)
    ensures var (next, verdict) := DecideByHistory(h, r);
            |Recent(HitsOf(next.user, key), from)| ==
            |Recent(HitsOf(h.user, key), from)|
              + if !verdict.Exempt? && UserKey(r) == key && r.userNow >= from then 1 else 0
  {
    hide Recent, UserKey, IpKey;
    RecentNext(HitsOf(h.user, key), r.userNow, from);
  }

  lemma IpHitCounts(h: State, r: Request, key: string, from: real)
    ensures var (next, verdict) := DecideByHistory(h, r);
            |Recent(HitsOf(next.ip, key), from)| ==
            |Recent(HitsOf(h.ip, key), from)|
              + if (verdict.IpLimited? || verdict.Passed?) && IpKey(r) == key && r.ipNow >= from then 1 else 0
  {
    hide Recent, UserKey, IpKey;
    RecentNext(HitsOf(h.ip, key), r.ipNow, from);
  }

  /** The history of a key is what was counted for it. */
  lemma {:induction false} HistoryCounts(rs: seq<Request>, key: string, from: real)
    ensures |VerdictsByHistory(EMPTY, rs)| == |rs|
    ensures |Recent(HitsOf(History(EMPTY, rs).user, key), from)| ==
            UserHits(rs, VerdictsByHistory(EMPTY, rs), key, from)
    ensures |Recent(HitsOf(History(EMPTY, rs).ip, key), from)| == IpHits(rs, VerdictsByHistory(EMPTY, rs), key, from)
  {
    VerdictPerRequestByHistory(EMPTY, rs);
    if rs != [] {
      hide Recent, History, VerdictsByHistory, DecideByHistory, HitsOf, UserKey, IpKey;
      var init, r := rs[..|rs| - 1], rs[|rs| - 1];
      HistoryCounts(init, key, from);
      assert rs == init + [r];
      HistoryNext(EMPTY, init, r);
      UserHitCounts(History(EMPTY, init), r, key, from);
      IpHitCounts(History(EMPTY, init), r, key, from);
      assert VerdictsByHistory(EMPTY, rs)[..|init|] == VerdictsByHistory(EMPTY, init);
    }
  }

  /** A verdict over any run: exempt for the two open paths; else limited for the user when
      more than 60 of the user's requests, this one included, are counted in the last 60
      seconds; else limited for the address when more than 200 are; else passed. */
  lemma VerdictIsByCount(rs: seq<Request>, r: Request, now: real)
    requires ClockRuns(rs + [r], now)
    ensures |Verdicts(EMPTY, rs)| == |rs| && |Verdicts(EMPTY, rs + [r])| == |rs| + 1
    ensures var before := Verdicts(EMPTY, rs);
            Verdicts(EMPTY, rs + [r])[|rs|] ==
            if r.path == "/health" || r.path == "/metrics" then Exempt
            else if UserHits(rs, before, UserKey(r), r.userNow - 60.0) + 1 > 60 then UserLimited
            else if IpHits(rs, before, IpKey(r), r.ipNow - 60.0) + 1 > 200 then IpLimited
            else Passed
  {
    VerdictPerRequest(EMPTY, rs);
    VerdictPerRequest(EMPTY, rs + [r]);
    ClockRunsBefore(rs, r, now);
    EvictionIsInvisible(rs, now);
    EvictionIsInvisible(rs + [r], now);
    HistoryNext(EMPTY, rs, r);
    HistoryCounts(rs, UserKey(r), r.userNow - 60.0);
    HistoryCounts(rs, IpKey(r), r.ipNow - 60.0);
    var h := History(EMPTY, rs);
    RecentNext(HitsOf(h.user, UserKey(r)), r.userNow, r.userNow - 60.0);
    RecentNext(HitsOf(h.ip, IpKey(r)), r.ipNow, r.ipNow - 60.0);
    hide Recent, History, VerdictsByHistory, Verdicts, UserHits, IpHits, UserKey, IpKey;
  }

  lemma {:induction false} ClockRunsBefore(rs: seq<Request>, r: Request, now: real)
    requires ClockRuns(rs + [r], now)
    ensures ClockRuns(rs, now)
    decreases |rs|
  {
    if rs != [] {
      assert (rs + [r])[1..] == rs[1..] + [r];
      ClockRunsBefore(rs[1..], r, rs[0].ipNow);
    }
  }

  /* ---------- who is counted ---------- */

  lemma KeysDecide(s: State, r: Request, q: Request)
    requires r.path == q.path && r.userNow == q.userNow && r.ipNow == q.ipNow
    requires UserKey(r) == UserKey(q) && IpKey(r) == IpKey(q)
    ensures Decide(s, r) == Decide(s, q)
  {
    hide UserKey, IpKey, Recent;
  }

  lemma SameIpKey(r: Request, q: Request)
    requires r.forwardedFor == q.forwardedFor && r.host == q.host
    ensures IpKey(r) == IpKey(q)
  {
    hide Strip, FirstPart;
  }

  /** The authenticated user counts, whatever the header says; the header counts without
      one; without either it is `anonymous`. */
  lemma UserIsAuthenticated(s: State, r: Request, user: string, header: Option<string>)
    requires user != ""
    ensures UserKey(r.(stateUserId := user, userHeader := header)) == user
    ensures Decide(s, r.(stateUserId := user, userHeader := header)) ==
            Decide(s, r.(stateUserId := "", userHeader := Some(user)))
    ensures Decide(s, r.(stateUserId := "", userHeader := None)) ==
            Decide(s, r.(stateUserId := "anonymous", userHeader := header))
  {
    hide Decide, IpKey;
    var own, sent := r.(stateUserId := user, userHeader := header), r.(stateUserId := "", userHeader := Some(user));
    SameIpKey(own, sent);
    KeysDecide(s, own, sent);
    var none, named := r.(stateUserId := "", userHeader := None), r.(stateUserId := "anonymous", userHeader := header);
    SameIpKey(none, named);
    KeysDecide(s, none, named);
  }

  lemma {:induction false} FirstPartIs(part: string, rest: string)
    requires ',' !in part && (rest == "" || rest[0] == ',')
    ensures FirstPart(part + rest) == part
    decreases |part|
  {
    if part == "" {
      assert part + rest == rest;
    } else {
      assert (part + rest)[1..] == part[1..] + rest;
      FirstPartIs(part[1..], rest);
    }
  }

  /** The first forwarded address counts, whatever the host is and whatever follows it; the
      host counts without one; without either it is `unknown`. */
  lemma AddressIsForwarded(s: State, r: Request, front: string, address: string, back: string, rest: string,
                           host: Option<string>)
    requires AllSpaces(front) && AllSpaces(back) && ',' !in address && (rest == "" || rest[0] == ',')
    requires address != "" && !IsSpace(address[0]) && !IsSpace(address[|address| - 1])
    ensures IpKey(r.(forwardedFor := front + (address + back) + rest, host := host)) == address
    ensures Decide(s, r.(forwardedFor := front + (address + back) + rest, host := host)) ==
            Decide(s, r.(forwardedFor := "", host := Some(address)))
    ensures Decide(s, r.(forwardedFor := "", host := None)) ==
            Decide(s, r.(forwardedFor := "", host := Some("unknown")))
  {
    var part := front + (address + back);
    var given, plain := r.(forwardedFor := part + rest, host := host), r.(forwardedFor := "", host := Some(address));
    var none, unknown := r.(forwardedFor := "", host := None), r.(forwardedFor := "", host := Some("unknown"));
    assert !IsSpace(',');
    FirstPartIs(part, rest);
    StripIs(front, address, back);
    EmptyFirstPart();
    hide Strip, FirstPart, Decide, IsSpace;
    KeysDecide(s, given, plain);
    KeysDecide(s, none, unknown);
  }

  /** A first address of white space alone is none. */
  lemma BlankAddressIsNone(r: Request, blank: string, rest: string, host: string)
    requires AllSpaces(blank) && (rest == "" || rest[0] == ',')
    ensures IpKey(r.(forwardedFor := blank + rest, host := Some(host))) == host
  {
    assert !IsSpace(',');
    FirstPartIs(blank, rest);
    StripIs(blank, "", "");
    assert blank + ("" + "") == blank;
    hide Strip, FirstPart;
  }

  lemma EmptyFirstPart()
    ensures FirstPart("") == "" && Strip("") == ""
  {
  }
}
