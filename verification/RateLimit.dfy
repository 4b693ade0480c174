/**
 Counters with expiring keys: the per-route request limiter, and the USSD issue
 limiter built on the same Redis commands. Every increment also restarts the
 key's time to live, which is what makes the bounds below hold in any window.
 */
module RateLimit {
  import opened Common

  /** A Redis counter; the key is gone from instant `expires` on. */
  datatype Counter = Counter(count: nat, expires: int)

  datatype Config = Config(limit: nat, window: int)

  /** INCR followed by EXPIRE, at instant `now`. */
  function Bumped(c: Option<Counter>, now: int, window: int): Counter {
    Counter(if c.Some? && now < c.value.expires then c.value.count + 1 else 1, now + window)
  }

  function Lookup(counters: map<string, Counter>, key: string): Option<Counter> {
    if key in counters then Some(counters[key]) else None
  }

  /** GET at instant `now`: a missing or expired key reads as zero. */
  function Value(c: Option<Counter>, now: int): nat {
    if c.Some? && now < c.value.expires then c.value.count else 0
  }

  class RateLimiter {
    const cfg: Config
    var counters: map<string, Counter>

    constructor (cfg: Config)
      ensures this.cfg == cfg && counters == map[]
    {
      this.cfg := cfg;
      counters := map[];
    }

    method Increment(key: string, now: int, redisUp: bool) returns (count: Option<nat>)
      modifies this
      ensures redisUp ==> counters == old(counters)[key := Bumped(Lookup(old(counters), key), now, cfg.window)]
      ensures redisUp ==> count == Some(counters[key].count)
      ensures !redisUp ==> count.None? && counters == old(counters)
    {
      if !redisUp {
        return None;
      }
      var current := 0;
      if key in counters && now < counters[key].expires {
        current := counters[key].count;
      }
      counters := counters[key := Counter(current + 1, now + cfg.window)];
      return Some(current + 1);
    }

    /** True when the request goes on to the handler; with Redis down every request does. */
    method Admit(key: string, now: int, redisUp: bool) returns (admitted: bool, remaining: nat)
      modifies this
      ensures redisUp ==> counters == old(counters)[key := Bumped(Lookup(old(counters), key), now, cfg.window)]
      ensures redisUp ==> admitted == (counters[key].count <= cfg.limit)
      ensures redisUp ==> remaining == if admitted then cfg.limit - counters[key].count else 0
      ensures !redisUp ==> admitted && counters == old(counters)
    {
      var count := Increment(key, now, redisUp);
      if count.None? {
        return true, 0;
      }
      remaining := if cfg.limit < count.value then 0 else cfg.limit - count.value;
      admitted := !(count.value > cfg.limit);
    }
  }

  // ---------- Traces of one key ----------

  /** The counter after requests at instants `ts`. */
  function After(ts: seq<int>, window: int): Option<Counter> {
    if ts == [] then None
    else Some(Bumped(After(ts[..|ts| - 1], window), ts[|ts| - 1], window))
  }

  function Admitted(ts: seq<int>, i: nat, cfg: Config): bool
    requires i < |ts|
  {
    After(ts[..i + 1], cfg.window).value.count <= cfg.limit
  }

  predicate InOrder(ts: seq<int>) {
    forall i :: 0 < i < |ts| ==> ts[i - 1] <= ts[i]
  }

  /** The place of request `i` in its burst: a run of requests less than `window` apart. */
  function BurstPlace(ts: seq<int>, i: nat, window: int): nat
    requires i < |ts|
  {
    if i == 0 || ts[i] - ts[i - 1] >= window then 1 else BurstPlace(ts, i - 1, window) + 1
  }

  lemma {:induction false} CounterIsBurstPlace(ts: seq<int>, i: nat, window: int)
    requires i < |ts|
    ensures After(ts[..i + 1], window) == Some(Counter(BurstPlace(ts, i, window), ts[i] + window))
  {
    assert ts[..i + 1][..i] == ts[..i];
    if i > 0 {
      CounterIsBurstPlace(ts, i - 1, window);
    }
  }

  /** A request is admitted exactly when it is among the first `limit` of its burst. */
  lemma AdmittedIffEarly(ts: seq<int>, i: nat, cfg: Config)
    requires i < |ts|
    ensures Admitted(ts, i, cfg) <==> BurstPlace(ts, i, cfg.window) <= cfg.limit
  {
    CounterIsBurstPlace(ts, i, cfg.window);
  }

  /** How many of the first `n` requests are admitted in [from, from + window). */
  function AdmittedIn(ts: seq<int>, n: nat, cfg: Config, from: int): nat
    requires n <= |ts|
  {
    if n == 0 then 0
    else AdmittedIn(ts, n - 1, cfg, from)
         + if from <= ts[n - 1] < from + cfg.window && Admitted(ts, n - 1, cfg) then 1 else 0
  }

  lemma {:induction false} NoneBefore(ts: seq<int>, n: nat, cfg: Config, from: int)
    requires InOrder(ts) && n <= |ts| && (n > 0 ==> ts[n - 1] < from)
    ensures AdmittedIn(ts, n, cfg, from) == 0
  {
    if n > 0 {
      assert n > 1 ==> ts[n - 2] <= ts[n - 1];
      NoneBefore(ts, n - 1, cfg, from);
    }
  }

  lemma {:induction false} WindowCount(ts: seq<int>, n: nat, cfg: Config, from: int)
    requires InOrder(ts) && n <= |ts|
    ensures AdmittedIn(ts, n, cfg, from) <= cfg.limit
    ensures n > 0 && from <= ts[n - 1] < from + cfg.window
            ==> AdmittedIn(ts, n, cfg, from) <= BurstPlace(ts, n - 1, cfg.window)
  {
    if n > 0 {
      WindowCount(ts, n - 1, cfg, from);
      AdmittedIffEarly(ts, n - 1, cfg);
      if n > 1 {
        assert ts[n - 2] <= ts[n - 1];
        if ts[n - 2] < from {
          NoneBefore(ts, n - 1, cfg, from);
        }
      }
    }
  }

  /** At most `limit` requests are admitted in every half-open interval of length `window`. */
  lemma RollingBound(ts: seq<int>, cfg: Config, from: int)
    requires InOrder(ts)
    ensures AdmittedIn(ts, |ts|, cfg, from) <= cfg.limit
  {
    WindowCount(ts, |ts|, cfg, from);
  }

  /** After a refusal at `i`, a request at `k` is refused exactly when no gap of at least `window` came between. */
  lemma {:induction false} RefusedUntilGap(ts: seq<int>, i: nat, k: nat, cfg: Config)
    requires i <= k < |ts| && !Admitted(ts, i, cfg) && cfg.limit > 0
    requires forall j :: i < j < k ==> ts[j] - ts[j - 1] < cfg.window
    ensures k > i ==> (Admitted(ts, k, cfg) <==> ts[k] - ts[k - 1] >= cfg.window)
  {
    AdmittedIffEarly(ts, i, cfg);
    AdmittedIffEarly(ts, k, cfg);
    if k > i + 1 {
      RefusedUntilGap(ts, i, k - 1, cfg);
      AdmittedIffEarly(ts, k - 1, cfg);
    }
  }

  // ---------- Traces of many keys ----------

  datatype Hit = Hit(key: string, at: int)

  function Table(hits: seq<Hit>, window: int): map<string, Counter> {
    if hits == [] then map[]
    else
      var before, h := Table(hits[..|hits| - 1], window), hits[|hits| - 1];
      before[h.key := Bumped(Lookup(before, h.key), h.at, window)]
  }

  function InstantsOf(hits: seq<Hit>, key: string): seq<int> {
    if hits == [] then []
    else
      var before, h := InstantsOf(hits[..|hits| - 1], key), hits[|hits| - 1];
      if h.key == key then before + [h.at] else before
  }

  /** Clients and routes do not disturb each other: a key's counter depends on its own requests only. */
  lemma {:induction false} KeysAreIndependent(hits: seq<Hit>, key: string, window: int)
    ensures Lookup(Table(hits, window), key) == After(InstantsOf(hits, key), window)
  {
    if hits != [] {
      KeysAreIndependent(hits[..|hits| - 1], key, window);
      var before := InstantsOf(hits[..|hits| - 1], key);
      assert (before + [hits[|hits| - 1].at])[..|before|] == before;
    }
  }

  // ---------- The issue limiter ----------

  /**
   One sequential call for a code: when, whether the counter could be read,
   whether the row could be stored, and whether the increment took effect, whose
   error the source ignores.
   */
  datatype Call = Call(at: int, readable: bool, stored: bool, counted: bool)

  /** The counter is read first; a refusal, a read error or a failed insert issues no code. */
  function Issues(c: Option<Counter>, call: Call, limit: nat): bool {
    call.readable && Value(c, call.at) < limit && call.stored
  }

  function AfterCall(c: Option<Counter>, call: Call, cfg: Config): Option<Counter> {
    if Issues(c, call, cfg.limit) && call.counted then Some(Bumped(c, call.at, cfg.window)) else c
  }

  /** One user's counter. */
  class IssueLimiter {
    const cfg: Config
    var counter: Option<Counter>

    constructor (cfg: Config)
      ensures this.cfg == cfg && counter == None
    {
      this.cfg := cfg;
      counter := None;
    }

    method CheckRateLimit(now: int, readable: bool) returns (ok: bool)
      ensures ok <==> readable && Value(counter, now) < cfg.limit
    {
      if !readable {
        return false;
      }
      var count := 0;
      if counter.Some? && now < counter.value.expires {
        count := counter.value.count;
      }
      ok := !(count >= cfg.limit);
    }

    method IncrementRateLimit(now: int, counted: bool)
      modifies this
      ensures counter == if counted then Some(Bumped(old(counter), now, cfg.window)) else old(counter)
    {
      if counted {
        var count := 0;
        if counter.Some? && now < counter.value.expires {
          count := counter.value.count;
        }
        counter := Some(Counter(count + 1, now + cfg.window));
      }
    }

    method GenerateCode(call: Call) returns (issued: bool)
      modifies this
      ensures issued == Issues(old(counter), call, cfg.limit)
      ensures counter == AfterCall(old(counter), call, cfg)
    {
      var ok := CheckRateLimit(call.at, call.readable);
      if !ok || !call.stored {
        return false;
      }
      IncrementRateLimit(call.at, call.counted);
      return true;
    }
  }

  function IssueCounter(calls: seq<Call>, cfg: Config): Option<Counter> {
    if calls == [] then None
    else AfterCall(IssueCounter(calls[..|calls| - 1], cfg), calls[|calls| - 1], cfg)
  }

  /** The instants at which codes were issued, with the increment counted or not. */
  function IssuedAt(calls: seq<Call>, cfg: Config, counted: bool): seq<int> {
    if calls == [] then []
    else
      var call := calls[|calls| - 1];
      var before := IssuedAt(calls[..|calls| - 1], cfg, counted);
      if Issues(IssueCounter(calls[..|calls| - 1], cfg), call, cfg.limit) && call.counted == counted
      then before + [call.at] else before
  }

  /** How many codes were issued in [from, from + window). */
  function IssuedIn(calls: seq<Call>, cfg: Config, from: int): nat {
    if calls == [] then 0
    else
      var call := calls[|calls| - 1];
      IssuedIn(calls[..|calls| - 1], cfg, from)
      + if Issues(IssueCounter(calls[..|calls| - 1], cfg), call, cfg.limit) && from <= call.at < from + cfg.window
        then 1 else 0
  }

  predicate AllAdmitted(ts: seq<int>, cfg: Config) {
    forall i :: 0 <= i < |ts| ==> Admitted(ts, i, cfg)
  }

  lemma OneMore(ts: seq<int>, t: int, cfg: Config)
    requires AllAdmitted(ts, cfg) && Value(After(ts, cfg.window), t) < cfg.limit
    ensures AllAdmitted(ts + [t], cfg)
    ensures After(ts + [t], cfg.window) == Some(Bumped(After(ts, cfg.window), t, cfg.window))
  {
    var more := ts + [t];
    assert more[..|ts|] == ts && more[..|more|] == more;
    forall i | 0 <= i < |more| ensures Admitted(more, i, cfg) {
      if i < |ts| {
        assert more[..i + 1] == ts[..i + 1];
        assert Admitted(ts, i, cfg);
      }
    }
  }

  predicate InTurn(calls: seq<Call>) {
    forall i :: 0 < i < |calls| ==> calls[i - 1].at <= calls[i].at
  }

  /** The limiter of issued codes is the request limiter on the counted instants of issue, all of them admitted. */
  lemma {:induction false} IssuesAreAdmitted(calls: seq<Call>, cfg: Config)
    requires InTurn(calls)
    ensures var ts := IssuedAt(calls, cfg, true);
            && IssueCounter(calls, cfg) == After(ts, cfg.window)
            && AllAdmitted(ts, cfg) && InOrder(ts)
            && (ts != [] ==> calls != [] && ts[|ts| - 1] <= calls[|calls| - 1].at)
  {
    if calls != [] {
      var n := |calls| - 1;
      IssuesAreAdmitted(calls[..n], cfg);
      var before, counter := IssuedAt(calls[..n], cfg, true), IssueCounter(calls[..n], cfg);
      if Issues(counter, calls[n], cfg.limit) && calls[n].counted {
        OneMore(before, calls[n].at, cfg);
        OrderKept(before, calls[n].at);
      } else {
        assert IssuedAt(calls, cfg, true) == before && IssueCounter(calls, cfg) == counter;
      }
    }
  }

  lemma OrderKept(ts: seq<int>, t: int)
    requires InOrder(ts) && (ts != [] ==> ts[|ts| - 1] <= t)
    ensures InOrder(ts + [t])
  {
  }

  function CountIn(ts: seq<int>, from: int, window: int): nat {
    if ts == [] then 0
    else CountIn(ts[..|ts| - 1], from, window) + if from <= ts[|ts| - 1] < from + window then 1 else 0
  }

  lemma {:induction false} AllCounted(ts: seq<int>, n: nat, cfg: Config, from: int)
    requires n <= |ts| && AllAdmitted(ts, cfg)
    ensures CountIn(ts[..n], from, cfg.window) == AdmittedIn(ts, n, cfg, from)
  {
    if n > 0 {
      AllCounted(ts, n - 1, cfg, from);
      assert ts[..n][..n - 1] == ts[..n - 1];
    }
  }

  lemma {:induction false} IssuedSplit(calls: seq<Call>, cfg: Config, from: int)
    ensures IssuedIn(calls, cfg, from)
            == CountIn(IssuedAt(calls, cfg, true), from, cfg.window)
               + CountIn(IssuedAt(calls, cfg, false), from, cfg.window)
  {
    if calls != [] {
      var n := |calls| - 1;
      IssuedSplit(calls[..n], cfg, from);
      CountSnoc(IssuedAt(calls[..n], cfg, true), calls[n].at, from, cfg.window);
      CountSnoc(IssuedAt(calls[..n], cfg, false), calls[n].at, from, cfg.window);
    }
  }

  lemma CountSnoc(ts: seq<int>, t: int, from: int, window: int)
    ensures CountIn(ts + [t], from, window) == CountIn(ts, from, window) + if from <= t < from + window then 1 else 0
  {
    assert (ts + [t])[..|ts|] == ts;
  }

  /**
   In every half-open interval of length `window` a user is issued at most
   `limit` codes, and one more for every issue in it whose increment was lost.
   */
  lemma IssueBound(calls: seq<Call>, cfg: Config, from: int)
    requires InTurn(calls)
    ensures IssuedIn(calls, cfg, from) <= cfg.limit + CountIn(IssuedAt(calls, cfg, false), from, cfg.window)
  {
    IssuesAreAdmitted(calls, cfg);
    IssuedSplit(calls, cfg, from);
    var ts := IssuedAt(calls, cfg, true);
    assert ts[..|ts|] == ts;
    AllCounted(ts, |ts|, cfg, from);
    RollingBound(ts, cfg, from);
  }

  /** Issues at instant 0 whose increment is lost. */
  function LostCalls(lost: nat): seq<Call> {
    if lost == 0 then [] else LostCalls(lost - 1) + [Call(0, true, true, false)]
  }

  /** The same, then `counted` ordinary ones. */
  function Burst(lost: nat, counted: nat): seq<Call> {
    if counted == 0 then LostCalls(lost) else Burst(lost, counted - 1) + [Call(0, true, true, true)]
  }

  /** What one more call, at instant 0, that issues a code adds. */
  lemma IssueOne(calls: seq<Call>, counted: bool, cfg: Config)
    requires cfg.window > 0 && Value(IssueCounter(calls, cfg), 0) < cfg.limit
    ensures var call := Call(0, true, true, counted);
            && IssueCounter(calls + [call], cfg) == AfterCall(IssueCounter(calls, cfg), call, cfg)
            && IssuedIn(calls + [call], cfg, 0) == IssuedIn(calls, cfg, 0) + 1
            && IssuedAt(calls + [call], cfg, false) == IssuedAt(calls, cfg, false) + if counted then [] else [0]
  {
    assert (calls + [Call(0, true, true, counted)])[..|calls|] == calls;
  }

  predicate AtOnce(calls: seq<Call>) {
    forall call :: call in calls ==> call.at == 0
  }

  lemma {:induction false} LostIssues(lost: nat, cfg: Config)
    requires cfg.window > 0 && cfg.limit > 0
    ensures IssueCounter(LostCalls(lost), cfg) == None && IssuedIn(LostCalls(lost), cfg, 0) == lost
    ensures CountIn(IssuedAt(LostCalls(lost), cfg, false), 0, cfg.window) == lost && AtOnce(LostCalls(lost))
  {
    if lost > 0 {
      LostIssues(lost - 1, cfg);
      IssueOne(LostCalls(lost - 1), false, cfg);
      CountSnoc(IssuedAt(LostCalls(lost - 1), cfg, false), 0, 0, cfg.window);
    }
  }

  lemma {:induction false} BurstIssues(lost: nat, counted: nat, cfg: Config)
    requires cfg.window > 0 && cfg.limit > 0 && counted <= cfg.limit
    ensures IssueCounter(Burst(lost, counted), cfg) == if counted == 0 then None else Some(Counter(counted, cfg.window))
    ensures IssuedIn(Burst(lost, counted), cfg, 0) == lost + counted
    ensures CountIn(IssuedAt(Burst(lost, counted), cfg, false), 0, cfg.window) == lost && AtOnce(Burst(lost, counted))
  {
    if counted == 0 {
      LostIssues(lost, cfg);
    } else {
      BurstIssues(lost, counted - 1, cfg);
      IssueOne(Burst(lost, counted - 1), true, cfg);
      var before := IssuedAt(Burst(lost, counted - 1), cfg, false);
      assert before + [] == before;
    }
  }

  /** No run with at most `lost` lost increments in an interval issues more than the limit in it. */
  ghost predicate HoldsDespite(cfg: Config, lost: nat) {
    forall calls, from :: InTurn(calls) && CountIn(IssuedAt(calls, cfg, false), from, cfg.window) <= lost
      ==> IssuedIn(calls, cfg, from) <= cfg.limit
  }

  lemma {:induction false} NoneIssued(calls: seq<Call>, cfg: Config, from: int)
    requires cfg.limit == 0 || cfg.window <= 0
    ensures IssuedIn(calls, cfg, from) == 0
  {
    if calls != [] {
      NoneIssued(calls[..|calls| - 1], cfg, from);
    }
  }

  /**
   The plain limit survives `lost` lost increments if and only if there are none,
   or no code can be issued at all; otherwise the bound above is reached.
   */
  lemma BoundExactly(cfg: Config, lost: nat)
    ensures HoldsDespite(cfg, lost) <==> lost == 0 || cfg.limit == 0 || cfg.window <= 0
    ensures cfg.limit > 0 && cfg.window > 0
            ==> exists calls :: InTurn(calls) && CountIn(IssuedAt(calls, cfg, false), 0, cfg.window) == lost
                                && IssuedIn(calls, cfg, 0) == cfg.limit + lost
  {
    if cfg.limit > 0 && cfg.window > 0 {
      BurstIssues(lost, cfg.limit, cfg);
      assert AtOnce(Burst(lost, cfg.limit)) && InTurn(Burst(lost, cfg.limit));
    }
    if lost == 0 || cfg.limit == 0 || cfg.window <= 0 {
      forall calls, from | InTurn(calls) && CountIn(IssuedAt(calls, cfg, false), from, cfg.window) <= lost
        ensures IssuedIn(calls, cfg, from) <= cfg.limit
      {
        if lost == 0 {
          IssueBound(calls, cfg, from);
        } else {
          NoneIssued(calls, cfg, from);
        }
      }
    }
  }

  /**
   Unlike a refused request, a refused call for a code does not extend the block:
   one `window` after the last counted issue the user can be issued a code
   again, however many calls were refused in between.
   */
  lemma {:induction false} BlockEndsAfterLastIssue(calls: seq<Call>, cfg: Config, now: int, counted: bool)
    requires InTurn(calls)
    requires cfg.limit > 0
    requires var ts := IssuedAt(calls, cfg, true);
             ts == [] || now >= ts[|ts| - 1] + cfg.window
    ensures Issues(IssueCounter(calls, cfg), Call(now, true, true, counted), cfg.limit)
  {
    IssuesAreAdmitted(calls, cfg);
  }
}
