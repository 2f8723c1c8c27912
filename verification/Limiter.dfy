/** The per-key token bucket (internal/ratelimit/bucket.go). Tokens and times are reals. A caller
    reads the clock before it takes the lock, so readings can reach a bucket out of order. */
module Limiter {
  const DEFAULT_BURST := 30
  const DEFAULT_INTERVAL := 2.0
  const DEFAULT_IDLE_TTL := 3600.0

  // ---- rates ----

  /** Tokens gained over a time span. */
  function Gain(span: real, interval: real): real
    requires interval > 0.0
  {
    span / interval
  }

  function Times(a: real, b: real): real { a * b }

  lemma GainAdds(a: real, b: real, interval: real)
    requires interval > 0.0
    ensures Gain(a + b, interval) == Gain(a, interval) + Gain(b, interval)
    ensures a <= b ==> Gain(a, interval) <= Gain(b, interval)
    ensures a < b ==> Gain(a, interval) < Gain(b, interval)
    ensures Gain(0.0, interval) == 0.0
  {
    if a < b {
      assert Gain(b, interval) == Gain(a, interval) + Gain(b - a, interval);
    }
  }

  lemma GainOf(n: real, interval: real)
    requires interval > 0.0
    ensures Gain(n * interval, interval) == n
  {
  }

  // ---- limits and buckets ----

  datatype Limit = Limit(burst: int, interval: real)
  {
    function Normalize(): Limit {
      Limit(if burst < 1 then DEFAULT_BURST else burst, if interval <= 0.0 then DEFAULT_INTERVAL else interval)
    }

    predicate Normal() { burst >= 1 && interval > 0.0 }
  }

  datatype Bucket = Bucket(tokens: real, seenAt: real)

  datatype Decision = Decision(allowed: bool, limit: int, remaining: int, retryAfter: real, reset: real)

  type Buckets = map<string, Bucket>

  function Refilled(l: Limit, b: Bucket, now: real): real
    requires l.Normal()
  {
    if now <= b.seenAt then b.tokens
    else
      var t := b.tokens + Gain(now - b.seenAt, l.interval);
      if t > l.burst as real then l.burst as real else t
  }

  /** The tokens a key has at some time; a key never seen has a full bucket. */
  function Level(l: Limit, m: Buckets, key: string, now: real): real
    requires l.Normal()
  {
    if key in m then Refilled(l, m[key], now) else l.burst as real
  }

  function After(l: Limit, m: Buckets, key: string, n: real, now: real): Buckets
    requires l.Normal()
  {
    var t := Level(l, m, key, now);
    m[key := Bucket(if t < n then t else t - n, now)]
  }

  /** No bucket is overdrawn or overfull, or was seen in the future. */
  predicate Sound(l: Limit, m: Buckets, now: real)
    requires l.Normal()
  {
    forall k :: k in m ==> 0.0 <= m[k].tokens <= l.burst as real && m[k].seenAt <= now
  }

  lemma LevelBounds(l: Limit, m: Buckets, key: string, now: real)
    requires l.Normal() && Sound(l, m, now)
    ensures 0.0 <= Level(l, m, key, now) <= l.burst as real
    ensures key in m ==> Level(l, m, key, now) <= m[key].tokens + Gain(now - m[key].seenAt, l.interval)
  {
    if key in m {
      GainAdds(0.0, now - m[key].seenAt, l.interval);
    }
  }

  lemma AfterSound(l: Limit, m: Buckets, key: string, n: real, now: real)
    requires l.Normal() && Sound(l, m, now) && n >= 0.0
    ensures Sound(l, After(l, m, key, n, now), now)
  {
    LevelBounds(l, m, key, now);
  }

  // ---- any run of calls ----

  datatype Call = Call(key: string, n: real, at: real)

  /** Calls in lock order, none before start and none after end. */
  predicate InOrder(calls: seq<Call>, start: real, end: real)
    decreases calls
  {
    if calls == [] then start <= end
    else start <= calls[0].at && calls[0].n >= 0.0 && InOrder(calls[1..], calls[0].at, end)
  }

  /** How far a key's readings move forward, from reading to reading in lock order. */
  function Forward(calls: seq<Call>, key: string, from: real): (r: real)
    ensures r >= 0.0
    decreases calls
  {
    if calls == [] then 0.0
    else if calls[0].key != key then Forward(calls[1..], key, from)
    else (if calls[0].at > from then calls[0].at - from else 0.0) + Forward(calls[1..], key, calls[0].at)
  }

  lemma {:induction false} ForwardInOrder(calls: seq<Call>, key: string, from: real, start: real, end: real)
    requires from <= start && InOrder(calls, start, end)
    ensures Forward(calls, key, from) <= end - from && start <= end
    decreases calls
  {
    if calls != [] {
      ForwardInOrder(calls[1..], key, if calls[0].key == key then calls[0].at else from, calls[0].at, end);
    }
  }

  /** The tokens granted to one key over a run. */
  function Granted(l: Limit, m: Buckets, calls: seq<Call>, key: string): real
    requires l.Normal()
    decreases calls
  {
    if calls == [] then 0.0
    else
      var c := calls[0];
      (if c.key == key && Level(l, m, key, c.at) >= c.n then c.n else 0.0)
      + Granted(l, After(l, m, c.key, c.n, c.at), calls[1..], key)
  }

  predicate SoundAt(l: Limit, m: Buckets, key: string, now: real) {
    key in m ==> 0.0 <= m[key].tokens <= l.burst as real && m[key].seenAt <= now
  }

  lemma LevelGrows(l: Limit, m: Buckets, key: string, now: real, later: real)
    requires l.Normal() && SoundAt(l, m, key, now)
    ensures Level(l, m, key, later) <= Level(l, m, key, now) + Gain(if later > now then later - now else 0.0, l.interval)
    ensures 0.0 <= Level(l, m, key, later) <= l.burst as real
  {
    hide Gain;
    GainAdds(0.0, later - now, l.interval);
    if key in m {
      GainAdds(now - m[key].seenAt, later - now, l.interval);
      GainAdds(later - m[key].seenAt, now - m[key].seenAt, l.interval);
      GainAdds(0.0, 0.0, l.interval);
      GainAdds(0.0, now - m[key].seenAt, l.interval);
      GainAdds(0.0, later - m[key].seenAt, l.interval);
    }
  }

  /** Whatever is left of a bucket is part of what the window may still grant, and what it
      gains is time its readings went forward, in whatever order they came. */
  lemma {:induction false} GrantedFrom(l: Limit, m: Buckets, calls: seq<Call>, key: string, start: real)
    requires l.Normal() && SoundAt(l, m, key, start) && forall c :: c in calls ==> c.n >= 0.0
    ensures Granted(l, m, calls, key) <= Level(l, m, key, start) + Gain(Forward(calls, key, start), l.interval)
    decreases calls
  {
    hide Gain;
    GainAdds(0.0, 0.0, l.interval);
    LevelGrows(l, m, key, start, start);
    if calls != [] {
      var c := calls[0];
      assert c in calls;
      var next := After(l, m, c.key, c.n, c.at);
      LevelGrows(l, m, key, start, c.at);
      if c.key == key {
        GrantedFrom(l, next, calls[1..], key, c.at);
        GainAdds(if c.at > start then c.at - start else 0.0, Forward(calls[1..], key, c.at), l.interval);
      } else {
        GrantedFrom(l, next, calls[1..], key, start);
      }
    }
  }

  /** In any window of length T no key is granted more than Burst + T/Interval tokens,
      whatever happened before it. */
  lemma WindowBound(l: Limit, m: Buckets, calls: seq<Call>, key: string, start: real, span: real)
    requires l.Normal() && Sound(l, m, start) && span >= 0.0 && InOrder(calls, start, start + span)
    ensures Granted(l, m, calls, key) <= l.burst as real + span / l.interval
  {
    NoneNegative(calls, start, start + span);
    GrantedFrom(l, m, calls, key, start);
    LevelBounds(l, m, key, start);
    ForwardInOrder(calls, key, start, start, start + span);
    GainAdds(Forward(calls, key, start), span, l.interval);
  }

  lemma {:induction false} NoneNegative(calls: seq<Call>, start: real, end: real)
    requires InOrder(calls, start, end)
    ensures forall c :: c in calls ==> c.n >= 0.0
    decreases calls
  {
    if calls != [] {
      NoneNegative(calls[1..], calls[0].at, end);
    }
  }

  // ---- which runs are granted in full ----

  function Asked(calls: seq<Call>): real { if calls == [] then 0.0 else calls[0].n + Asked(calls[1..]) }

  /** The first j + 1 calls together ask for no more than there was at the first of them and
      what is gained from it to the last, for every j. */
  predicate Fits(l: Limit, calls: seq<Call>, have: real)
    requires l.Normal()
  {
    forall j :: 0 <= j < |calls| ==> Asked(calls[..j + 1]) <= have + Gain(calls[j].at - calls[0].at, l.interval)
  }

  /** Every stretch of the calls fits a bucket that is full at its first call. */
  predicate EveryStretchFits(l: Limit, calls: seq<Call>)
    requires l.Normal()
  {
    forall i :: 0 <= i < |calls| ==> Fits(l, calls[i..], l.burst as real)
  }

  lemma StretchStep(l: Limit, calls: seq<Call>)
    requires l.Normal() && calls != []
    ensures EveryStretchFits(l, calls) <==> Fits(l, calls, l.burst as real) && EveryStretchFits(l, calls[1..])
  {
    hide Fits;
    assert calls[0..] == calls;
    forall i | 0 <= i < |calls| - 1 ensures calls[1..][i..] == calls[i + 1..] {
    }
    if Fits(l, calls, l.burst as real) && EveryStretchFits(l, calls[1..]) {
      forall i | 0 <= i < |calls| ensures Fits(l, calls[i..], l.burst as real) {
        if i > 0 {
          assert Fits(l, calls[1..][i - 1..], l.burst as real);
        }
      }
    }
  }

  lemma FitsAt(l: Limit, calls: seq<Call>, j: nat)
    requires l.Normal() && j + 1 < |calls|
    ensures var span := calls[j + 1].at - calls[1].at;
            && Asked(calls[..j + 2]) == calls[0].n + Asked(calls[1..][..j + 1])
            && Gain(calls[j + 1].at - calls[0].at, l.interval) == Gain(calls[1].at - calls[0].at, l.interval) + Gain(span, l.interval)
  {
    assert calls[..j + 2][1..] == calls[1..][..j + 1];
    GainAdds(calls[1].at - calls[0].at, calls[j + 1].at - calls[1].at, l.interval);
    hide Gain;
    assert calls[1].at - calls[0].at + (calls[j + 1].at - calls[1].at) == calls[j + 1].at - calls[0].at;
  }

  /** What is left after the first call, topped up to the second. */
  function Left(l: Limit, calls: seq<Call>, have: real): real
    requires l.Normal() && |calls| > 1
  {
    var t := have - calls[0].n + Gain(calls[1].at - calls[0].at, l.interval);
    if t > l.burst as real then l.burst as real else t
  }

  lemma FitsThen(l: Limit, calls: seq<Call>, have: real)
    requires l.Normal() && |calls| > 1 && Fits(l, calls, have) && Fits(l, calls[1..], l.burst as real)
    ensures calls[0].n <= have && Fits(l, calls[1..], Left(l, calls, have))
  {
    FirstFits(l, calls);
    hide Gain, Asked;
    var rest, next := calls[1..], Left(l, calls, have);
    assert Asked(calls[..0 + 1]) <= have + Gain(calls[0].at - calls[0].at, l.interval);
    forall j | 0 <= j < |rest| ensures Asked(rest[..j + 1]) <= next + Gain(rest[j].at - rest[0].at, l.interval) {
      assert Asked(calls[..(j + 1) + 1]) <= have + Gain(calls[j + 1].at - calls[0].at, l.interval);
      assert Asked(rest[..j + 1]) <= l.burst as real + Gain(rest[j].at - rest[0].at, l.interval);
      FitsAt(l, calls, j);
    }
  }

  lemma FitsBefore(l: Limit, calls: seq<Call>, have: real)
    requires l.Normal() && |calls| > 1 && calls[0].n <= have && Fits(l, calls[1..], Left(l, calls, have))
    ensures Fits(l, calls, have) && Fits(l, calls[1..], l.burst as real)
  {
    FirstFits(l, calls);
    hide Gain, Asked;
    var rest, next := calls[1..], Left(l, calls, have);
    forall j | 0 <= j < |calls| ensures Asked(calls[..j + 1]) <= have + Gain(calls[j].at - calls[0].at, l.interval) {
      if j > 0 {
        assert Asked(rest[..(j - 1) + 1]) <= next + Gain(rest[j - 1].at - rest[0].at, l.interval);
        FitsAt(l, calls, j - 1);
      }
    }
    hide Left;
    assert next <= l.burst as real by { LeftBounded(l, calls, have); }
  }

  lemma LeftBounded(l: Limit, calls: seq<Call>, have: real)
    requires l.Normal() && |calls| > 1
    ensures Left(l, calls, have) <= l.burst as real
  {
    hide Gain;
  }

  lemma FirstFits(l: Limit, calls: seq<Call>)
    requires l.Normal() && calls != []
    ensures Asked(calls[..0 + 1]) == Asked(calls[..1]) == calls[0].n && Gain(calls[0].at - calls[0].at, l.interval) == 0.0
  {
    assert calls[..1][1..] == [];
  }

  predicate AllTrue(ds: seq<bool>) { forall i :: 0 <= i < |ds| ==> ds[i] }

  predicate OneKey(calls: seq<Call>, key: string) { forall c :: c in calls ==> c.key == key }

  /** A run on one key is granted in full exactly if it fits what the bucket holds at its first
      call, and every later stretch of it fits a full bucket. */
  lemma {:induction false} GrantedInFull(l: Limit, m: Buckets, calls: seq<Call>, key: string, end: real)
    requires l.Normal() && calls != [] && OneKey(calls, key) && InOrder(calls, calls[0].at, end) && SoundAt(l, m, key, calls[0].at)
    ensures AllTrue(Decisions(l, m, calls)) <==> Fits(l, calls, Level(l, m, key, calls[0].at)) && EveryStretchFits(l, calls[1..])
    decreases calls
  {
    var c, have := calls[0], Level(l, m, key, calls[0].at);
    var next := After(l, m, key, c.n, c.at);
    assert c in calls;
    assert Decisions(l, m, calls) == [have >= c.n] + Decisions(l, next, calls[1..]);
    AllTrueCons(have >= c.n, Decisions(l, next, calls[1..]));
    LevelGrows(l, m, key, c.at, c.at);
    if |calls| == 1 {
      FitsOne(l, calls, have);
      assert calls[1..] == [];
    } else {
      GrantedInFull(l, next, calls[1..], key, end);
      if Fits(l, calls, have) && Fits(l, calls[1..], l.burst as real) {
        FitsThen(l, calls, have);
      } else if c.n <= have && Fits(l, calls[1..], Left(l, calls, have)) {
        FitsBefore(l, calls, have);
      }
      StretchStep(l, calls[1..]);
      hide Fits, EveryStretchFits, Gain;
      GainAdds(0.0, calls[1].at - c.at, l.interval);
    }
  }

  lemma FitsOne(l: Limit, calls: seq<Call>, have: real)
    requires l.Normal() && |calls| == 1
    ensures Fits(l, calls, have) <==> calls[0].n <= have
  {
    FirstFits(l, calls);
    hide Gain, Asked;
    if Fits(l, calls, have) {
      assert Asked(calls[..0 + 1]) <= have + Gain(calls[0].at - calls[0].at, l.interval);
    }
  }

  lemma AllTrueCons(d: bool, ds: seq<bool>)
    ensures AllTrue([d] + ds) <==> d && AllTrue(ds)
  {
    var all := [d] + ds;
    assert all[0] == d && forall i :: 0 <= i < |ds| ==> all[i + 1] == ds[i];
    if AllTrue(all) {
      assert all[0];
      forall i | 0 <= i < |ds| ensures ds[i] {
        assert all[i + 1];
      }
    }
  }

  /** From a full bucket: all of a run is granted exactly if every stretch of it asks for no
      more than Burst and what its own duration gains. */
  lemma FullBucketGrants(l: Limit, m: Buckets, calls: seq<Call>, key: string, start: real, end: real)
    requires l.Normal() && OneKey(calls, key) && InOrder(calls, start, end) && key !in m
    ensures AllTrue(Decisions(l, m, calls)) <==> EveryStretchFits(l, calls)
  {
    if calls != [] {
      GrantedInFull(l, m, calls, key, end);
      StretchStep(l, calls);
    }
  }

  /** The calls of one key. */
  function Own(calls: seq<Call>, key: string): seq<Call> {
    if calls == [] then [] else (if calls[0].key == key then [calls[0]] else []) + Own(calls[1..], key)
  }

  /** What a key is granted depends on its own calls alone. */
  lemma {:induction false} KeysAreApart(l: Limit, m: Buckets, w: Buckets, calls: seq<Call>, key: string)
    requires l.Normal() && (key in m <==> key in w) && (key in m ==> m[key] == w[key])
    ensures Granted(l, m, calls, key) == Granted(l, w, Own(calls, key), key)
    decreases calls
  {
    hide Refilled;
    if calls != [] {
      var c, rest := calls[0], Own(calls[1..], key);
      var next := After(l, m, c.key, c.n, c.at);
      if c.key == key {
        KeysAreApart(l, next, After(l, w, key, c.n, c.at), calls[1..], key);
        assert ([c] + rest)[1..] == rest;
      } else {
        KeysAreApart(l, next, w, calls[1..], key);
        assert [] + rest == rest;
      }
    }
  }

  /** A call whose reading is older than the one before it is decided as if it had been read on
      time. It leaves the levels a call on time would have left exactly if it found the bucket
      full and takes nothing from it: because it asks for nothing, or for more than fits. */
  lemma LateIsHarmless(l: Limit, m: Buckets, key: string, n: real, at: real)
    requires l.Normal() && n >= 0.0 && key in m && 0.0 <= m[key].tokens <= l.burst as real && at < m[key].seenAt
    ensures var late, prompt := After(l, m, key, n, at), After(l, m, key, n, m[key].seenAt);
            && (Level(l, m, key, at) >= n <==> Level(l, m, key, m[key].seenAt) >= n)
            && ((forall later :: later >= m[key].seenAt ==> Level(l, late, key, later) == Level(l, prompt, key, later))
                <==> m[key].tokens == l.burst as real && (n == 0.0 || n > l.burst as real))
  {
    hide Gain;
    var seen := m[key].seenAt;
    var late, prompt := After(l, m, key, n, at), After(l, m, key, n, seen);
    GainAdds(0.0, seen - at, l.interval);
    if late[key].tokens == l.burst as real {
      forall later | later >= seen ensures Level(l, late, key, later) == Level(l, prompt, key, later) {
        GainAdds(0.0, later - at, l.interval);
        GainAdds(0.0, later - seen, l.interval);
      }
    } else {
      assert Level(l, late, key, seen) > Level(l, prompt, key, seen);
    }
  }

  lemma AskOne(l: Limit, m: Buckets, have: real, at: real, rest: seq<Call>) returns (next: Buckets)
    requires l.Normal() && Level(l, m, "k", at) == have
    ensures "k" in next && next["k"] == Bucket(if have < 1.0 then have else have - 1.0, at)
    ensures Granted(l, m, [Call("k", 1.0, at)] + rest, "k") == (if have < 1.0 then 0.0 else 1.0) + Granted(l, next, rest, "k")
  {
    next := After(l, m, "k", 1.0, at);
    assert ([Call("k", 1.0, at)] + rest)[1..] == rest;
  }

  lemma LevelOne(l: Limit, m: Buckets)
    requires l == Limit(1, 1.0) && "k" in m && m["k"].tokens == 0.0
    ensures m["k"].seenAt == 0.0 ==> Level(l, m, "k", 1.0) == 1.0
    ensures m["k"].seenAt == 1.0 ==> Level(l, m, "k", 0.0) == 0.0
  {
    GainOf(1.0, 1.0);
  }

  /** So a reading that comes late can be granted twice: three tokens of a bucket of one within
      the time it takes to gain one. */
  lemma LateReadingForgives() returns (l: Limit, calls: seq<Call>)
    ensures l.Normal() && (forall c :: c in calls ==> c.key == "k" && c.n == 1.0 && 0.0 <= c.at <= 1.0)
    ensures Granted(l, map[], calls, "k") > l.burst as real + (1.0 - 0.0) / l.interval
  {
    hide Granted, Level;
    l := Limit(1, 1.0);
    var four := [Call("k", 1.0, 1.0)] + [];
    var three := [Call("k", 1.0, 0.0)] + four;
    var two := [Call("k", 1.0, 1.0)] + three;
    calls := [Call("k", 1.0, 0.0)] + two;
    FullAtFirst(l);
    var m := AskOne(l, map[], 1.0, 0.0, two);
    LevelOne(l, m);
    m := AskOne(l, m, 1.0, 1.0, three);
    LevelOne(l, m);
    m := AskOne(l, m, 0.0, 0.0, four);
    LevelOne(l, m);
    m := AskOne(l, m, 1.0, 1.0, []);
    NothingGranted(l, m);
  }

  lemma FullAtFirst(l: Limit)
    requires l.Normal()
    ensures Level(l, map[], "k", 0.0) == l.burst as real
  {
  }

  lemma NothingGranted(l: Limit, m: Buckets)
    requires l.Normal()
    ensures Granted(l, m, [], "k") == 0.0
  {
  }

  /** After a refusal, a call for the same number of tokens succeeds once the returned wait
      is over and not a moment before, unless it asks for more than a bucket holds. */
  lemma RetryIsExact(l: Limit, m: Buckets, key: string, n: real, now: real, wait: real)
    requires l.Normal() && Sound(l, m, now) && wait >= 0.0
    requires Level(l, m, key, now) < n
    ensures Level(l, After(l, m, key, n, now), key, now + wait) >= n
            <==> n <= l.burst as real && wait >= Times(n - Level(l, m, key, now), l.interval)
  {
    var have := Level(l, m, key, now);
    LevelBounds(l, m, key, now);
    WaitIsExact(wait, n - have, l.interval);
    LevelAfterWait(l, m, key, n, now, wait);
    hide Gain, Level, After;
  }

  lemma WaitIsExact(wait: real, missing: real, interval: real)
    requires interval > 0.0
    ensures wait >= missing * interval <==> Gain(wait, interval) >= missing
  {
    var need := missing * interval;
    GainOf(missing, interval);
    GainAdds(need, wait, interval);
    GainAdds(wait, need, interval);
    hide Gain;
  }

  lemma LevelAfterWait(l: Limit, m: Buckets, key: string, n: real, now: real, wait: real)
    requires l.Normal() && wait >= 0.0 && Level(l, m, key, now) < n && Level(l, m, key, now) <= l.burst as real
    ensures var t := Level(l, m, key, now) + Gain(wait, l.interval);
            Level(l, After(l, m, key, n, now), key, now + wait) == if t > l.burst as real then l.burst as real else t
  {
    GainAdds(0.0, wait, l.interval);
    hide Gain;
    assert now + wait - now == wait;
  }

  lemma PositiveProduct(a: real, b: real)
    requires a > 0.0 && b > 0.0
    ensures a * b > 0.0
  {
  }

  // ---- forgetting idle keys ----

  function Reaped(m: Buckets, cutoff: real): Buckets { map k | k in m && m[k].seenAt >= cutoff :: m[k] }

  /** Two tables that give every key the same level from now on. */
  ghost predicate Alike(l: Limit, a: Buckets, b: Buckets, now: real)
    requires l.Normal()
  {
    forall key: string, later: real :: later >= now ==> Level(l, a, key, later) == Level(l, b, key, later)
  }

  function Decisions(l: Limit, m: Buckets, calls: seq<Call>): seq<bool>
    requires l.Normal()
    decreases calls
  {
    if calls == [] then []
    else
      var c := calls[0];
      [Level(l, m, c.key, c.at) >= c.n] + Decisions(l, After(l, m, c.key, c.n, c.at), calls[1..])
  }

  lemma AlikeAfter(l: Limit, a: Buckets, b: Buckets, c: Call, now: real)
    requires l.Normal() && Alike(l, a, b, now) && now <= c.at
    ensures Alike(l, After(l, a, c.key, c.n, c.at), After(l, b, c.key, c.n, c.at), c.at)
    ensures Level(l, a, c.key, c.at) == Level(l, b, c.key, c.at)
  {
    var a', b' := After(l, a, c.key, c.n, c.at), After(l, b, c.key, c.n, c.at);
    forall key: string, later: real | later >= c.at ensures Level(l, a', key, later) == Level(l, b', key, later) {
      if key != c.key {
        assert Level(l, a', key, later) == Level(l, a, key, later);
        assert Level(l, b', key, later) == Level(l, b, key, later);
      }
    }
  }

  lemma IdleIsFull(l: Limit, m: Buckets, key: string, now: real, idle: real, later: real)
    requires l.Normal() && Sound(l, m, now) && later >= now
    requires idle >= l.burst as real * l.interval
    requires key in m && m[key].seenAt < now - idle
    ensures Level(l, m, key, later) == l.burst as real
  {
    var span := later - m[key].seenAt;
    GainOf(l.burst as real, l.interval);
    PositiveProduct(l.burst as real, l.interval);
    GainAdds(l.burst as real * l.interval, span, l.interval);
    hide Gain;
  }

  lemma ReapedAlike(l: Limit, m: Buckets, now: real, idle: real)
    requires l.Normal() && Sound(l, m, now) && idle >= l.burst as real * l.interval
    ensures Alike(l, Reaped(m, now - idle), m, now) && Sound(l, Reaped(m, now - idle), now)
  {
    var r := Reaped(m, now - idle);
    forall key: string, later: real | later >= now ensures Level(l, r, key, later) == Level(l, m, key, later) {
      if key in m && key !in r {
        IdleIsFull(l, m, key, now, idle, later);
      }
    }
  }

  /** A run with sweeps anywhere between the calls. */
  datatype Op = Ask(call: Call) | Sweep(now: real, idle: real)
  {
    function At(): real { if Ask? then call.at else now }
  }

  function Ran(l: Limit, m: Buckets, op: Op): Buckets
    requires l.Normal()
  {
    match op
    case Ask(c) => After(l, m, c.key, c.n, c.at)
    case Sweep(now, idle) => Reaped(m, now - idle)
  }

  /** In order, and every sweep leaves a key the time to fill up. */
  predicate OpsInOrder(l: Limit, ops: seq<Op>, start: real, end: real)
    decreases ops
  {
    if ops == [] then start <= end
    else
      && start <= ops[0].At()
      && (if ops[0].Ask? then ops[0].call.n >= 0.0 else ops[0].idle >= l.burst as real * l.interval)
      && OpsInOrder(l, ops[1..], ops[0].At(), end)
  }

  function Asks(ops: seq<Op>): seq<Call> {
    if ops == [] then [] else (if ops[0].Ask? then [ops[0].call] else []) + Asks(ops[1..])
  }

  function OpDecisions(l: Limit, m: Buckets, ops: seq<Op>): seq<bool>
    requires l.Normal()
    decreases ops
  {
    if ops == [] then []
    else (if ops[0].Ask? then [Level(l, m, ops[0].call.key, ops[0].call.at) >= ops[0].call.n] else [])
         + OpDecisions(l, Ran(l, m, ops[0]), ops[1..])
  }

  function OpGranted(l: Limit, m: Buckets, ops: seq<Op>, key: string): real
    requires l.Normal()
    decreases ops
  {
    if ops == [] then 0.0
    else (if ops[0].Ask? && ops[0].call.key == key && Level(l, m, key, ops[0].call.at) >= ops[0].call.n then ops[0].call.n else 0.0)
         + OpGranted(l, Ran(l, m, ops[0]), ops[1..], key)
  }

  lemma {:induction false} AsksInOrder(l: Limit, ops: seq<Op>, start: real, from: real, end: real)
    requires from <= start && OpsInOrder(l, ops, start, end)
    ensures InOrder(Asks(ops), from, end)
    decreases ops
  {
    if ops != [] {
      var rest := Asks(ops[1..]);
      AsksInOrder(l, ops[1..], ops[0].At(), if ops[0].Ask? then ops[0].At() else from, end);
      if ops[0].Ask? {
        assert ([ops[0].call] + rest)[1..] == rest;
      } else {
        assert [] + rest == rest;
      }
    }
  }

  lemma {:induction false} SweptAlike(l: Limit, a: Buckets, b: Buckets, ops: seq<Op>, key: string, now: real, end: real)
    requires l.Normal() && Sound(l, a, now) && Alike(l, a, b, now) && OpsInOrder(l, ops, now, end)
    ensures OpDecisions(l, a, ops) == Decisions(l, b, Asks(ops)) && OpGranted(l, a, ops, key) == Granted(l, b, Asks(ops), key)
    decreases ops
  {
    hide Gain, Alike, Level, After, Reaped, Sound;
    if ops != [] {
      var rest := Asks(ops[1..]);
      SoundLater(l, a, now, ops[0].At());
      match ops[0]
      case Ask(c) =>
        AlikeAfter(l, a, b, c, now);
        AlikeSame(l, a, b, key, c, now);
        AfterSound(l, a, c.key, c.n, c.at);
        SweptAlike(l, Ran(l, a, ops[0]), After(l, b, c.key, c.n, c.at), ops[1..], key, c.at, end);
        assert ([c] + rest)[1..] == rest;
      case Sweep(at, idle) =>
        ReapedAlike(l, a, at, idle);
        AlikeJoins(l, Reaped(a, at - idle), a, b, now, at);
        SweptAlike(l, Reaped(a, at - idle), b, ops[1..], key, at, end);
        assert [] + rest == rest;
    }
  }

  lemma SoundLater(l: Limit, m: Buckets, now: real, later: real)
    requires l.Normal() && Sound(l, m, now) && now <= later
    ensures Sound(l, m, later)
  {
  }

  lemma AlikeSame(l: Limit, a: Buckets, b: Buckets, key: string, c: Call, now: real)
    requires l.Normal() && Alike(l, a, b, now) && now <= c.at
    ensures Level(l, a, key, c.at) == Level(l, b, key, c.at)
  {
  }

  lemma AlikeJoins(l: Limit, a: Buckets, b: Buckets, c: Buckets, now: real, later: real)
    requires l.Normal() && now <= later && Alike(l, a, b, later) && Alike(l, b, c, now)
    ensures Alike(l, a, c, later)
  {
  }

  lemma AlikeSelf(l: Limit, a: Buckets, now: real)
    requires l.Normal()
    ensures Alike(l, a, a, now)
  {
  }

  /** Sweeps that drop keys idle for at least Burst * Interval, anywhere in a run, change no
      decision of it, and the window bound holds over the whole run. */
  lemma ReapChangesNothing(l: Limit, m: Buckets, ops: seq<Op>, key: string, start: real, span: real)
    requires l.Normal() && Sound(l, m, start) && span >= 0.0 && OpsInOrder(l, ops, start, start + span)
    ensures OpDecisions(l, m, ops) == Decisions(l, m, Asks(ops))
    ensures OpGranted(l, m, ops, key) <= l.burst as real + span / l.interval
  {
    AlikeSelf(l, m, start);
    SweptAlike(l, m, m, ops, key, start, start + span);
    AsksInOrder(l, ops, start, start, start + span);
    WindowBound(l, m, Asks(ops), key, start, span);
  }

  /** With any shorter idle time some table loses a refusal. */
  lemma ShorterReapForgives(l: Limit, now: real, idle: real) returns (m: Buckets, call: Call)
    requires l.Normal() && 0.0 < idle < l.burst as real * l.interval
    ensures Sound(l, m, now) && InOrder([call], now, call.at)
    ensures Decisions(l, m, [call]) == [false] && Decisions(l, Reaped(m, now - idle), [call]) == [true]
  {
    var full := l.burst as real * l.interval;
    var span := (idle + full) / 2.0;
    m := map["k" := Bucket(0.0, now - span)];
    call := Call("k", l.burst as real, now);
    GainOf(l.burst as real, l.interval);
    GainAdds(span, full, l.interval);
    GainAdds(0.0, span, l.interval);
    hide Gain;
    assert "k" !in Reaped(m, now - idle);
    assert [call][1..] == [];
  }

  lemma FreshIsFull(l: Limit, now: real)
    requires l.Normal()
    ensures Refilled(l, Bucket(l.burst as real, now), now) == l.burst as real
  {
  }

  // ---- the limiter ----

  class RateLimiter {
    const limit: Limit
    var buckets: Buckets

    constructor (l: Limit)
      ensures limit == l.Normalize() && limit.Normal() && buckets == map[]
    {
      limit := l.Normalize();
      buckets := map[];
    }

    /** The bucket's tokens brought up to date. */
    static method Refill(l: Limit, b: Bucket, now: real) returns (tokens: real)
      requires l.Normal()
      ensures tokens == Refilled(l, b, now)
    {
      hide Gain;
      tokens := b.tokens;
      if now > b.seenAt {
        tokens := tokens + Gain(now - b.seenAt, l.interval);
        if tokens > l.burst as real {
          tokens := l.burst as real;
        }
      }
    }

    method AllowN(key: string, n: real, now: real) returns (d: Decision)
      requires limit.Normal()
      modifies this
      ensures buckets == After(limit, old(buckets), key, n, now)
      ensures d.allowed == (old(Level(limit, buckets, key, now)) >= n) && d.limit == limit.burst
      ensures d.retryAfter == if d.allowed then 0.0 else Times(n - old(Level(limit, buckets, key, now)), limit.interval)
      ensures d.remaining == buckets[key].tokens.Floor
      ensures d.reset == Times(limit.burst as real - buckets[key].tokens, limit.interval)
    {
      hide Refilled, Times;
      var burst := limit.burst as real;
      var b := if key in buckets then buckets[key] else Bucket(burst, now);
      FreshIsFull(limit, now);
      var tokens := Refill(limit, b, now);
      if tokens < n {
        buckets := buckets[key := Bucket(tokens, now)];
        return Decision(false, limit.burst, tokens.Floor, Times(n - tokens, limit.interval), Times(burst - tokens, limit.interval));
      }
      tokens := tokens - n;
      buckets := buckets[key := Bucket(tokens, now)];
      d := Decision(true, limit.burst, tokens.Floor, 0.0, Times(burst - tokens, limit.interval));
    }

    method Forget(key: string)
      modifies this
      requires limit.Normal()
      ensures buckets == old(buckets) - {key}
      ensures forall now :: Level(limit, buckets, key, now) == limit.burst as real
      ensures forall k, now :: k != key ==> Level(limit, buckets, k, now) == Level(limit, old(buckets), k, now)
    {
      buckets := buckets - {key};
    }

    method Reap(idleFor: real, now: real) returns (dropped: nat)
      modifies this
      ensures buckets == Reaped(old(buckets), now - if idleFor <= 0.0 then DEFAULT_IDLE_TTL else idleFor)
      ensures dropped == |old(buckets)| - |buckets|
    {
      var idle := if idleFor <= 0.0 then DEFAULT_IDLE_TTL else idleFor;
      var cutoff := now - idle;
      dropped := 0;
      ghost var all := buckets;
      var left := buckets.Keys;
      while left != {}
        invariant left <= all.Keys && dropped == |all| - |buckets|
        invariant forall k :: k in buckets <==> k in all && (k in left || all[k].seenAt >= cutoff)
        invariant forall k :: k in buckets ==> buckets[k] == all[k]
        decreases |left|
      {
        var k :| k in left;
        left := left - {k};
        if buckets[k].seenAt < cutoff {
          ghost var before := buckets;
          buckets := buckets - {k};
          assert before.Keys == buckets.Keys + {k};
          dropped := dropped + 1;
        }
      }
      assert buckets == Reaped(all, cutoff);
    }
  }
}
