/** Token buckets per key, over real time. */
module RateLimits {
  datatype Policy = Policy(rate: real, capacity: nat)

  predicate ValidPolicy(p: Policy) {
    p.rate > 0.0 && p.capacity > 0
  }

  datatype Bucket = Bucket(tokens: real, updatedAt: real)

  datatype Decision = Decision(allowed: bool, retryAfterSeconds: int)

  function Min(a: real, b: real): real { if a < b then a else b }

  function Ceil(x: real): (n: int)
    ensures n as real >= x && (n as real) < x + 1.0
  {
    if x.Floor as real == x then x.Floor else x.Floor + 1
  }

  /** The tokens a key has at a moment: a key never seen has a full bucket. */
  function Level(p: Policy, buckets: map<string, Bucket>, key: string, now: real): real {
    if key !in buckets then p.capacity as real
    else
      var b := buckets[key];
      var elapsed := if now - b.updatedAt > 0.0 then now - b.updatedAt else 0.0;
      Min(p.capacity as real, b.tokens + elapsed * p.rate)
  }

  function Acquire(p: Policy, buckets: map<string, Bucket>, key: string, now: real): (map<string, Bucket>, Decision)
    requires ValidPolicy(p)
  {
    var level := Level(p, buckets, key, now);
    if level >= 1.0 then (buckets[key := Bucket(level - 1.0, now)], Decision(true, 0))
    else
      var wait := Ceil((1.0 - level) / p.rate);
      (buckets[key := Bucket(level, now)], Decision(false, if wait > 1 then wait else 1))
  }

  class TokenBucketRateLimiter {
    const policy: Policy
    var buckets: map<string, Bucket>

    constructor (rate: real, capacity: nat)
      requires rate > 0.0 && capacity > 0
      ensures ValidPolicy(policy) && policy == Policy(rate, capacity) && buckets == map[]
    {
      policy := Policy(rate, capacity);
      buckets := map[];
    }

    method AcquireToken(key: string, now: real) returns (decision: Decision)
      requires ValidPolicy(policy)
      modifies this
      ensures (buckets, decision) == Acquire(policy, old(buckets), key, now)
    {
      var bucket;
      if key !in buckets {
        bucket := Bucket(policy.capacity as real, now);
      } else {
        var elapsed := if now - buckets[key].updatedAt > 0.0 then now - buckets[key].updatedAt else 0.0;
        var refilled := buckets[key].tokens + elapsed * policy.rate;
        bucket := Bucket(Min(policy.capacity as real, refilled), now);
      }
      assert bucket == Bucket(Level(policy, buckets, key, now), now);
      if bucket.tokens >= 1.0 {
        bucket := bucket.(tokens := bucket.tokens - 1.0);
        buckets := buckets[key := bucket];
        return Decision(true, 0);
      }
      buckets := buckets[key := bucket];
      var wait := Ceil((1.0 - bucket.tokens) / policy.rate);
      return Decision(false, if wait > 1 then wait else 1);
    }
  }

  // ----- Runs -----------------------------------------------------------------------------------

  datatype Request = Request(key: string, at: real)

  function AcquireAll(p: Policy, buckets: map<string, Bucket>, requests: seq<Request>): map<string, Bucket>
    requires ValidPolicy(p)
    decreases |requests|
  {
    if requests == [] then buckets
    else AcquireAll(p, Acquire(p, buckets, requests[0].key, requests[0].at).0, requests[1..])
  }

  /** How many requests of a key a sequence of requests grants. */
  function Granted(p: Policy, buckets: map<string, Bucket>, requests: seq<Request>, key: string): nat
    requires ValidPolicy(p)
    decreases |requests|
  {
    if requests == [] then 0
    else
      var (after, decision) := Acquire(p, buckets, requests[0].key, requests[0].at);
      (if requests[0].key == key && decision.allowed then 1 else 0) + Granted(p, after, requests[1..], key)
  }

  /** The clock does not go back, and it has reached `from` when the first request comes. */
  predicate Monotone(from: real, requests: seq<Request>) {
    forall i :: 0 <= i < |requests| ==>
      from <= requests[i].at && forall j :: 0 <= j <= i ==> requests[j].at <= requests[i].at
  }

  /** Buckets hold between zero and capacity tokens and were updated no later than now. */
  predicate Sane(p: Policy, buckets: map<string, Bucket>, now: real) {
    forall key :: key in buckets ==>
      0.0 <= buckets[key].tokens <= p.capacity as real && buckets[key].updatedAt <= now
  }

  lemma LevelInRange(p: Policy, buckets: map<string, Bucket>, key: string, now: real)
    requires ValidPolicy(p) && Sane(p, buckets, now)
    ensures 0.0 <= Level(p, buckets, key, now) <= p.capacity as real
  {
    if key in buckets {
      ProductSign(now - buckets[key].updatedAt, p.rate);
    }
  }

  lemma ProductSign(a: real, b: real)
    requires a >= 0.0 && b >= 0.0
    ensures a * b >= 0.0
  {
  }

  /** The tokens that time alone adds. */
  function Refill(p: Policy, from: real, to: real): real {
    (to - from) * p.rate
  }

  /** Waiting adds at most the rate times the time waited. */
  lemma LevelGrows(p: Policy, buckets: map<string, Bucket>, key: string, now: real, later: real)
    requires ValidPolicy(p) && Sane(p, buckets, now) && now <= later
    ensures Level(p, buckets, key, later) <= Level(p, buckets, key, now) + Refill(p, now, later)
  {
    ProductSign(later - now, p.rate);
    if key in buckets {
      var u := buckets[key].updatedAt;
      assert (later - u) * p.rate == (now - u) * p.rate + (later - now) * p.rate;
    }
  }

  lemma AcquireSane(p: Policy, buckets: map<string, Bucket>, r: Request, now: real)
    requires ValidPolicy(p) && Sane(p, buckets, now) && now <= r.at
    ensures Sane(p, Acquire(p, buckets, r.key, r.at).0, r.at)
  {
    LevelInRange(p, buckets, r.key, r.at);
  }

  /** A request costs its own key one token if it is granted and costs other keys nothing. */
  lemma AcquireCost(p: Policy, buckets: map<string, Bucket>, r: Request, now: real, key: string)
    requires ValidPolicy(p) && Sane(p, buckets, now) && now <= r.at
    ensures var (after, decision) := Acquire(p, buckets, r.key, r.at);
      Level(p, after, key, r.at)
        == Level(p, buckets, key, r.at) - (if r.key == key && decision.allowed then 1.0 else 0.0)
  {
    LevelInRange(p, buckets, r.key, r.at);
    var (after, _) := Acquire(p, buckets, r.key, r.at);
    if r.key == key {
      assert (r.at - after[key].updatedAt) * p.rate == 0.0;
    }
  }

  lemma RefillAdds(p: Policy, a: real, b: real, c: real)
    ensures Refill(p, a, c) == Refill(p, a, b) + Refill(p, b, c) && Refill(p, a, a) == 0.0
  {
  }

  function LastTime(now: real, requests: seq<Request>): real {
    if requests == [] then now else requests[|requests| - 1].at
  }

  /** The grants of a key are paid for by its tokens at the start and the refill since. */
  lemma {:induction false} GrantsArePaid(p: Policy, buckets: map<string, Bucket>, now: real, requests: seq<Request>, key: string)
    requires ValidPolicy(p) && Sane(p, buckets, now) && Monotone(now, requests)
    ensures Granted(p, buckets, requests, key) as real
         <= Level(p, buckets, key, now) + Refill(p, now, LastTime(now, requests))
    decreases |requests|
  {
    hide Level, Acquire, Refill;
    LevelInRange(p, buckets, key, now);
    if requests == [] {
      RefillAdds(p, now, now, now);
    } else {
      var r := requests[0];
      var (after, decision) := Acquire(p, buckets, r.key, r.at);
      var end := LastTime(now, requests);
      LevelGrows(p, buckets, key, now, r.at);
      AcquireCost(p, buckets, r, now, key);
      AcquireSane(p, buckets, r, now);
      GrantsArePaid(p, after, r.at, requests[1..], key);
      assert LastTime(r.at, requests[1..]) == end;
      RefillAdds(p, now, r.at, end);
    }
  }

  lemma {:induction false} RunSane(p: Policy, buckets: map<string, Bucket>, now: real, requests: seq<Request>)
    requires ValidPolicy(p) && Sane(p, buckets, now) && Monotone(now, requests)
    ensures Sane(p, AcquireAll(p, buckets, requests), LastTime(now, requests))
    decreases |requests|
  {
    if requests != [] {
      AcquireSane(p, buckets, requests[0], now);
      RunSane(p, Acquire(p, buckets, requests[0].key, requests[0].at).0, requests[0].at, requests[1..]);
    }
  }

  lemma PastIsSane(p: Policy, start: real, past: seq<Request>, window: seq<Request>)
    requires ValidPolicy(p) && window != [] && Monotone(start, past + window)
    ensures Sane(p, AcquireAll(p, map[], past), window[0].at) && Monotone(window[0].at, window)
  {
    var all := past + window;
    assert forall i :: 0 <= i < |past| ==> all[i] == past[i];
    assert forall i :: 0 <= i < |window| ==> all[|past| + i] == window[i];
    RunSane(p, map[], start, past);
    if past != [] {
      assert all[|past| - 1].at <= all[|past|].at;
    }
  }

  /** In every run from an empty limiter and every window of it, a key is granted at most its
      capacity plus the rate times the length of the window. */
  lemma WindowBound(p: Policy, start: real, past: seq<Request>, window: seq<Request>, key: string)
    requires ValidPolicy(p) && window != [] && Monotone(start, past + window)
    ensures Granted(p, AcquireAll(p, map[], past), window, key) as real
         <= p.capacity as real + Refill(p, window[0].at, window[|window| - 1].at)
  {
    hide Level, Monotone, Refill;
    PastIsSane(p, start, past, window);
    var before := AcquireAll(p, map[], past);
    GrantsArePaid(p, before, window[0].at, window, key);
    LevelInRange(p, before, key, window[0].at);
    assert LastTime(window[0].at, window) == window[|window| - 1].at;
  }

  lemma {:induction false} OtherKeysUntouched(p: Policy, buckets: map<string, Bucket>, requests: seq<Request>, key: string)
    requires ValidPolicy(p) && key in buckets && forall i :: 0 <= i < |requests| ==> requests[i].key != key
    ensures key in AcquireAll(p, buckets, requests) && AcquireAll(p, buckets, requests)[key] == buckets[key]
    decreases |requests|
  {
    if requests != [] {
      OtherKeysUntouched(p, Acquire(p, buckets, requests[0].key, requests[0].at).0, requests[1..], key);
    }
  }

  /** A bucket that lacked part of a token has a whole one once it waited long enough for it. */
  lemma RefilledLevel(p: Policy, buckets: map<string, Bucket>, key: string, later: real)
    requires ValidPolicy(p) && key in buckets && later >= buckets[key].updatedAt
    requires later - buckets[key].updatedAt >= (1.0 - buckets[key].tokens) / p.rate
    ensures Level(p, buckets, key, later) >= 1.0
  {
    var b := buckets[key];
    var needed := (1.0 - b.tokens) / p.rate;
    var waited := later - b.updatedAt;
    assert needed * p.rate == 1.0 - b.tokens;
    ProductSign(waited - needed, p.rate);
    assert waited * p.rate == needed * p.rate + (waited - needed) * p.rate;
  }

  /** After a refusal, a key that waits the advised time and makes no other request is served next,
      whatever other keys do meanwhile. */
  lemma RetryIsServed(p: Policy, buckets: map<string, Bucket>, key: string, now: real, others: seq<Request>, later: real)
    requires ValidPolicy(p)
    requires !Acquire(p, buckets, key, now).1.allowed
    requires forall i :: 0 <= i < |others| ==> others[i].key != key
    requires later >= now + Acquire(p, buckets, key, now).1.retryAfterSeconds as real
    ensures var after := AcquireAll(p, Acquire(p, buckets, key, now).0, others);
      Acquire(p, after, key, later).1.allowed
  {
    hide Level;
    var denied := Acquire(p, buckets, key, now).0;
    OtherKeysUntouched(p, denied, others, key);
    RefilledLevel(p, AcquireAll(p, denied, others), key, later);
  }

  /** How many requests of a key there are. */
  function Asked(requests: seq<Request>, key: string): nat {
    if requests == [] then 0 else (if requests[0].key == key then 1 else 0) + Asked(requests[1..], key)
  }

  /** A key has at least some number of tokens, whenever it asks. */
  predicate HasAtLeast(p: Policy, buckets: map<string, Bucket>, key: string, n: nat) {
    n <= p.capacity && (key in buckets ==> buckets[key].tokens >= n as real)
  }

  /** Tokens are only ever taken by grants, so a level never falls below what was left. */
  lemma LevelNeverFalls(p: Policy, buckets: map<string, Bucket>, key: string, n: nat, now: real)
    requires ValidPolicy(p) && HasAtLeast(p, buckets, key, n)
    ensures Level(p, buckets, key, now) >= n as real
  {
    if key in buckets {
      var elapsed := if now - buckets[key].updatedAt > 0.0 then now - buckets[key].updatedAt else 0.0;
      ProductSign(elapsed, p.rate);
    }
  }

  lemma {:induction false} TokensServe(p: Policy, buckets: map<string, Bucket>, requests: seq<Request>, key: string, n: nat)
    requires ValidPolicy(p) && HasAtLeast(p, buckets, key, n) && Asked(requests, key) <= n
    ensures Granted(p, buckets, requests, key) == Asked(requests, key)
    decreases |requests|
  {
    hide Level;
    if requests != [] {
      var (k, at) := (requests[0].key, requests[0].at);
      var after := Acquire(p, buckets, k, at).0;
      LevelNeverFalls(p, buckets, key, n, at);
      TokensServe(p, after, requests[1..], key, if k == key then n - 1 else n);
    }
  }

  /** In every run, a key that was never seen has its whole capacity: as many requests of it are
      granted in a row, whenever they come and whatever other keys do. */
  lemma NewKeyIsServed(p: Policy, past: seq<Request>, requests: seq<Request>, key: string)
    requires ValidPolicy(p) && Asked(past, key) == 0 && Asked(requests, key) <= p.capacity
    ensures Granted(p, AcquireAll(p, map[], past), requests, key) == Asked(requests, key)
  {
    StaysUnseen(p, map[], past, key);
    TokensServe(p, AcquireAll(p, map[], past), requests, key, p.capacity);
  }

  lemma {:induction false} StaysUnseen(p: Policy, buckets: map<string, Bucket>, requests: seq<Request>, key: string)
    requires ValidPolicy(p) && key !in buckets && Asked(requests, key) == 0
    ensures key !in AcquireAll(p, buckets, requests)
    decreases |requests|
  {
    hide Level;
    if requests != [] {
      StaysUnseen(p, Acquire(p, buckets, requests[0].key, requests[0].at).0, requests[1..], key);
    }
  }

  /** The advised wait is the shortest in whole seconds: after a refusal that advises more than one
      second, a request that comes a second earlier is refused. */
  lemma AdviceIsShortest(p: Policy, buckets: map<string, Bucket>, key: string, now: real)
    requires ValidPolicy(p) && !Acquire(p, buckets, key, now).1.allowed
    requires Acquire(p, buckets, key, now).1.retryAfterSeconds > 1
    ensures var (denied, d) := Acquire(p, buckets, key, now);
      !Acquire(p, denied, key, now + (d.retryAfterSeconds - 1) as real).1.allowed
  {
    var level := Level(p, buckets, key, now);
    var (denied, d) := Acquire(p, buckets, key, now);
    var early := (d.retryAfterSeconds - 1) as real;
    var needed := (1.0 - level) / p.rate;
    assert denied[key] == Bucket(level, now) && early < needed;
    assert needed * p.rate == 1.0 - level;
    ProductStrict(early, needed, p.rate);
    assert now + early - denied[key].updatedAt == early;
    hide Ceil;
  }

  lemma ProductStrict(a: real, b: real, x: real)
    requires a < b && x > 0.0
    ensures a * x < b * x
  {
  }
}
