/** The in-memory sliding-window limiter in front of the sentiment-analysis
    route: per client key, the timestamps (in milliseconds) of its recent
    accepted requests. A request is refused when the client already has
    `MaxRequests` requests in the last `WindowMs` milliseconds. The clock is
    a parameter: `now` stands for `Date.now()`, and the periodic cleanup
    timer is replaced by calls to `Sweep`. */
module RateLimiter {
  import opened JsValues

  const WindowMs := 60000
  const MaxRequests := 5
  const LimitMessage := "Demasiadas solicitudes de análisis de sentimientos. Intenta de nuevo en un minuto."
  const UnknownClient := "unknown"

  /** `Math.ceil(windowMs / 1000)`: the window in whole seconds, rounded up. */
  function RetryAfterSeconds(): (s: int)
    ensures 1000 * (s - 1) < WindowMs <= 1000 * s
  {
    (WindowMs + 999) / 1000
  }

  /** The outcome of one request: accepted with the `X-RateLimit-*` header
      values (the reset instant in milliseconds since the epoch), or refused
      with status 429 and the fields of its JSON body. */
  datatype Decision =
    | Allowed(limit: int, remaining: int, resetAt: int)
    | Rejected(status: int, error: string, message: string, retryAfter: int, limit: int, windowMs: int, remaining: int)

  /** The timestamps still inside the window at `now`, in their order; a
      timestamp stored twice (two requests in one millisecond) is kept
      twice. */
  function Prune(ts: seq<int>, now: int): (r: seq<int>)
    ensures |r| <= |ts|
    ensures forall t :: t in r <==> t in ts && now - t < WindowMs
    ensures forall t :: Occurrences(r, t) == if now - t < WindowMs then Occurrences(ts, t) else 0
  {
    if ts == [] then []
    else
      var rest := Prune(ts[1..], now);
      if now - ts[0] < WindowMs then
        assert ([ts[0]] + rest)[1..] == rest;
        [ts[0]] + rest
      else rest
  }

  /** How many times `t` occurs in `ts`. */
  function Occurrences(ts: seq<int>, t: int): nat {
    if ts == [] then 0 else (if ts[0] == t then 1 else 0) + Occurrences(ts[1..], t)
  }

  /** `Occurrences` is the multiplicity of `t` in the multiset of `ts`. */
  lemma {:induction false} OccurrencesIsMultiplicity(ts: seq<int>, t: int)
    ensures Occurrences(ts, t) == multiset(ts)[t]
  {
    if ts != [] {
      assert ts == [ts[0]] + ts[1..];
      OccurrencesIsMultiplicity(ts[1..], t);
    }
  }

  /** Every stored list is non-empty and holds at most MaxRequests entries:
      a list is stored only with the request just accepted, and a request is
      accepted only while fewer than MaxRequests are in the window. */
  predicate WellFormed(m: map<string, seq<int>>) {
    forall k :: k in m ==> 1 <= |m[k]| <= MaxRequests
  }

  /** What `this.requests.get(key) || []` gives. */
  function Stored(m: map<string, seq<int>>, key: string): seq<int> {
    if key in m then m[key] else []
  }

  /** One request from `key` at `now`: the decision and the new map. This is
      the specification of `SentimentRateLimiter.Check`. */
  function Step(m: map<string, seq<int>>, key: string, now: int): (res: (Decision, map<string, seq<int>>))
    ensures var recent := Prune(Stored(m, key), now);
      res.0.Rejected? <==> |recent| >= MaxRequests
    ensures res.0.Rejected? ==>
      && res.1 == m
      && res.0 == Rejected(429, "TooManyRequests", LimitMessage, 60, MaxRequests, WindowMs, 0)
    ensures res.0.Allowed? ==>
      && res.1 == m[key := Prune(Stored(m, key), now) + [now]]
      && res.0.limit == MaxRequests
      && res.0.resetAt == now + WindowMs
      && res.0.remaining == MaxRequests - |res.1[key]|
      && 0 <= res.0.remaining < MaxRequests
      && 1 <= |res.1[key]| <= MaxRequests
      && forall t :: t in res.1[key] ==> now - t < WindowMs
    ensures WellFormed(m) ==> WellFormed(res.1)
  {
    var recent := Prune(Stored(m, key), now);
    if |recent| >= MaxRequests then
      (Rejected(429, "TooManyRequests", LimitMessage, RetryAfterSeconds(), MaxRequests, WindowMs, 0), m)
    else
      var updated := recent + [now];
      var remaining := MaxRequests - |updated|;
      (Allowed(MaxRequests, if remaining < 0 then 0 else remaining, now + WindowMs), m[key := updated])
  }

  /** The cleanup pass at `now`: every list pruned, and the keys whose list
      became empty removed. This is the specification of
      `SentimentRateLimiter.Sweep`. */
  function Swept(m: map<string, seq<int>>, now: int): (r: map<string, seq<int>>)
    ensures forall k :: k in r <==> k in m && Prune(m[k], now) != []
    ensures forall k :: k in r ==> r[k] == Prune(m[k], now)
    ensures forall k :: k in r ==> r[k] != [] && forall t :: t in r[k] ==> now - t < WindowMs
    ensures WellFormed(m) ==> WellFormed(r)
  {
    map k | k in m && Prune(m[k], now) != [] :: Prune(m[k], now)
  }

  /** The client-supplied addresses `getClientKey` looks at; each is
      `None` when the request does not have it. */
  datatype ClientRequest = ClientRequest(
    ip: Option<string>,
    connectionRemoteAddress: Option<string>,
    socketRemoteAddress: Option<string>,
    forwardedFor: Option<string>)

  /** `s.split(',')[0]`: everything before the first comma. */
  function FirstField(s: string): (r: string)
    ensures r <= s && ',' !in r
    ensures |r| < |s| ==> s[|r|] == ','
  {
    if s == [] || s[0] == ',' then [] else [s[0]] + FirstField(s[1..])
  }

  /** The candidate keys in the order `getClientKey` tries them, an absent
      one as "" (both are falsy). */
  function Candidates(req: ClientRequest): seq<string> {
    [ Get(req.ip), Get(req.connectionRemoteAddress), Get(req.socketRemoteAddress),
      match req.forwardedFor case None => "" case Some(h) => FirstField(h) ]
  }

  function Get(o: Option<string>): string {
    match o case None => "" case Some(s) => s
  }

  /** The first non-empty string of `cs`, or `fallback`. */
  function FirstNonEmpty(cs: seq<string>, fallback: string): (r: string)
    ensures fallback != "" ==> r != ""
    ensures (forall i :: 0 <= i < |cs| ==> cs[i] == "") ==> r == fallback
    ensures (exists i :: 0 <= i < |cs| && cs[i] != "") ==>
      exists i :: 0 <= i < |cs| && cs[i] == r && r != "" && forall j :: 0 <= j < i ==> cs[j] == ""
  {
    if cs == [] then fallback
    else if cs[0] != "" then cs[0]
    else
      var r := FirstNonEmpty(cs[1..], fallback);
      assert forall i :: 1 <= i < |cs| ==> cs[i] == cs[1..][i - 1];
      r
  }

  /** `getClientKey(req)`: the first truthy address, else "unknown", so that
      all unidentified clients share one bucket. */
  function ClientKey(req: ClientRequest): (key: string)
    ensures key != ""
    ensures var cs := Candidates(req);
      (forall i :: 0 <= i < |cs| ==> cs[i] == "") ==> key == UnknownClient
    ensures var cs := Candidates(req);
      (exists i :: 0 <= i < |cs| && cs[i] != "") ==>
      exists i :: 0 <= i < |cs| && cs[i] == key && forall j :: 0 <= j < i ==> cs[j] == ""
  {
    FirstNonEmpty(Candidates(req), UnknownClient)
  }

  class SentimentRateLimiter {
    /** Client key to the timestamps of its accepted requests. */
    var requests: map<string, seq<int>>

    /** Every stored list is non-empty and holds at most MaxRequests entries. */
    ghost predicate Valid()
      reads this
    {
      WellFormed(requests)
    }

    constructor ()
      ensures requests == map[] && Valid()
    {
      requests := map[];
    }

    /** The check-and-record body of `middleware()` for a request from `key`
        arriving at `now`. */
    method Check(key: string, now: int) returns (d: Decision)
      modifies this
      requires Valid()
      ensures (d, requests) == Step(old(requests), key, now)
      ensures Valid()
    {
      var clientRequests := if key in requests then requests[key] else [];
      clientRequests := Prune(clientRequests, now);
      if |clientRequests| >= MaxRequests {
        d := Rejected(429, "TooManyRequests", LimitMessage, RetryAfterSeconds(), MaxRequests, WindowMs, 0);
        return;
      }
      clientRequests := clientRequests + [now];
      requests := requests[key := clientRequests];
      var remaining := MaxRequests - |clientRequests|;
      d := Allowed(MaxRequests, if remaining < 0 then 0 else remaining, now + WindowMs);
    }

    /** The body of the cleanup timer, run at `now`. */
    method Sweep(now: int)
      modifies this
      requires Valid()
      ensures requests == Swept(old(requests), now)
      ensures Valid()
    {
      var pending := requests.Keys;
      while pending != {}
        invariant pending <= old(requests).Keys
        invariant requests.Keys <= old(requests).Keys
        invariant forall k :: k in pending ==> k in requests && requests[k] == old(requests)[k]
        invariant forall k :: k in old(requests) && k !in pending ==>
          (k in requests <==> Prune(old(requests)[k], now) != [])
        invariant forall k :: k in requests && k !in pending ==> requests[k] == Prune(old(requests)[k], now)
        invariant WellFormed(requests)
        decreases pending
      {
        var k :| k in pending;
        var validRequests := Prune(requests[k], now);
        if validRequests == [] {
          requests := requests - {k};
        } else {
          requests := requests[k := validRequests];
        }
        pending := pending - {k};
      }
    }
  }

  // ---------------------------------------------------------------------
  // Properties across several requests

  /** Pruning at an earlier instant and then at a later one is pruning at the
      later one. */
  lemma {:induction false} PruneLater(ts: seq<int>, t1: int, t2: int)
    requires t1 <= t2
    ensures Prune(Prune(ts, t1), t2) == Prune(ts, t2)
  {
    if ts != [] {
      PruneLater(ts[1..], t1, t2);
      if t1 - ts[0] < WindowMs {
        PruneCons(ts[0], Prune(ts[1..], t1), t2);
      } else {
        assert Prune(ts, t1) == Prune(ts[1..], t1);
        assert Prune(ts, t2) == Prune(ts[1..], t2);
      }
    }
  }

  /** Pruning keeps the order of the list: it distributes over
      concatenation. */
  lemma {:induction false} PruneAppend(a: seq<int>, b: seq<int>, now: int)
    ensures Prune(a + b, now) == Prune(a, now) + Prune(b, now)
  {
    if a == [] {
      assert a + b == b;
    } else {
      assert (a + b)[1..] == a[1..] + b;
      PruneAppend(a[1..], b, now);
    }
  }

  lemma PruneCons(t: int, rest: seq<int>, now: int)
    ensures Prune([t] + rest, now) == (if now - t < WindowMs then [t] else []) + Prune(rest, now)
  {
    assert ([t] + rest)[1..] == rest;
  }

  /** A sweep is invisible to later requests: a request after a sweep is
      decided as it would have been without the sweep. */
  lemma SweepIsInvisible(m: map<string, seq<int>>, swept: int, key: string, now: int)
    requires swept <= now
    ensures Step(Swept(m, swept), key, now).0 == Step(m, key, now).0
  {
    if key in m {
      PruneLater(m[key], swept, now);
    }
  }

  /** The decisions for a run of requests from one client at the given
      instants, and the map afterwards. */
  function Run(m: map<string, seq<int>>, key: string, times: seq<int>): (res: (seq<Decision>, map<string, seq<int>>))
    ensures |res.0| == |times|
    decreases |times|
  {
    if times == [] then ([], m)
    else
      var (d, m1) := Step(m, key, times[0]);
      var (ds, m2) := Run(m1, key, times[1..]);
      ([d] + ds, m2)
  }

  /** All instants of `times` lie within less than one window of each other. */
  predicate WithinOneWindow(times: seq<int>) {
    forall i, j :: 0 <= i < |times| && 0 <= j < |times| ==> times[j] - times[i] < WindowMs
  }

  /** The general form of RunWithinWindow: a client that already has `p`
      stored requests, none of which leaves the window during the run. */
  lemma {:induction false} RunFromStored(m: map<string, seq<int>>, key: string, times: seq<int>)
    requires WithinOneWindow(times)
    requires forall t, x :: t in Stored(m, key) && x in times ==> x - t < WindowMs
    requires WellFormed(m)
    ensures forall i :: 0 <= i < |times| ==>
      (Run(m, key, times).0[i].Allowed? <==> |Stored(m, key)| + i < MaxRequests)
    decreases |times|
  {
    if times != [] {
      var prior := Stored(m, key);
      assert times[0] in times;
      assert Prune(prior, times[0]) == prior by {
        PruneKeepsRecent(prior, times[0]);
      }
      var (d, m1) := Step(m, key, times[0]);
      var rest := times[1..];
      assert WithinOneWindow(rest) by {
        forall i, j | 0 <= i < |rest| && 0 <= j < |rest| ensures rest[j] - rest[i] < WindowMs {
          assert rest[j] == times[j + 1] && rest[i] == times[i + 1];
        }
      }
      forall t, x | t in Stored(m1, key) && x in rest ensures x - t < WindowMs {
        assert x in times;
        if t !in prior {
          assert t == times[0];
        }
      }
      RunFromStored(m1, key, rest);
      var ds := Run(m, key, times).0;
      forall i | 0 <= i < |times| ensures ds[i].Allowed? <==> |prior| + i < MaxRequests {
        if i > 0 {
          assert ds[i] == Run(m1, key, rest).0[i - 1];
        }
      }
    }
  }

  /** Pruning keeps a list whose timestamps are all recent. */
  lemma {:induction false} PruneKeepsRecent(ts: seq<int>, now: int)
    requires forall t :: t in ts ==> now - t < WindowMs
    ensures Prune(ts, now) == ts
  {
    if ts != [] {
      assert ts[0] in ts;
      assert forall t :: t in ts[1..] ==> t in ts;
      PruneKeepsRecent(ts[1..], now);
      assert ts == [ts[0]] + ts[1..];
    }
  }

  /** A client with no stored requests gets its first five requests within
      one window accepted and every later one in that window refused. */
  lemma RunWithinWindow(m: map<string, seq<int>>, key: string, times: seq<int>)
    requires WellFormed(m) && key !in m
    requires WithinOneWindow(times)
    ensures forall i :: 0 <= i < |times| ==> (Run(m, key, times).0[i].Allowed? <==> i < MaxRequests)
  {
    RunFromStored(m, key, times);
  }

  /** Once a whole window has passed since every stored request, the client
      is accepted again, with four requests left. */
  lemma AcceptedAfterWindow(m: map<string, seq<int>>, key: string, now: int)
    requires forall t :: t in Stored(m, key) ==> now - t >= WindowMs
    ensures Step(m, key, now).0 == Allowed(MaxRequests, MaxRequests - 1, now + WindowMs)
  {
    PruneAllExpired(Stored(m, key), now);
  }

  lemma {:induction false} PruneAllExpired(ts: seq<int>, now: int)
    requires forall t :: t in ts ==> now - t >= WindowMs
    ensures Prune(ts, now) == []
  {
    if ts != [] {
      assert ts[0] in ts;
      assert forall t :: t in ts[1..] ==> t in ts;
      PruneAllExpired(ts[1..], now);
    }
  }
}
