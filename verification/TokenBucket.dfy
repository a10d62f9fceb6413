/** The continuous token bucket of the HTTP middleware, over the reals, and the
    map of one bucket per client. */
module TokenBucket {

  /** A bucket's changing fields; `rps` is also its capacity. */
  datatype Bucket = Bucket(tokens: real, last: real)

  function Min(a: real, b: real): real {
    if a < b then a else b
  }

  /** The tokens gained in a stretch of time. */
  function Gain(rps: real, seconds: real): real {
    seconds * rps
  }

  function Refilled(rps: real, b: Bucket, now: real): real {
    Min(rps, b.tokens + Gain(rps, now - b.last))
  }

  function Fresh(rps: real, now: real): Bucket {
    Bucket(rps, now)
  }

  function Granted(rps: real, b: Bucket, now: real): bool {
    Refilled(rps, b, now) >= 1.0
  }

  function Step(rps: real, b: Bucket, now: real): Bucket {
    Bucket(if Granted(rps, b, now) then Refilled(rps, b, now) - 1.0 else Refilled(rps, b, now), now)
  }

  predicate Within(rps: real, b: Bucket) {
    0.0 <= b.tokens <= rps
  }

  class TokenBucket {
    const rps: real
    var tokens: real
    var last: real

    ghost function State(): Bucket
      reads this
    {
      Bucket(tokens, last)
    }

    constructor (rps: int, now: real)
      ensures this.rps == rps as real && State() == Fresh(rps as real, now)
    {
      this.rps, tokens, last := rps as real, rps as real, now;
    }

    method Allow(now: real) returns (ok: bool)
      modifies this
      ensures ok == Granted(rps, old(State()), now) && State() == Step(rps, old(State()), now)
    {
      var elapsed := now - last;
      tokens := Min(rps, tokens + elapsed * rps);
      last := now;
      if tokens >= 1.0 {
        tokens := tokens - 1.0;
        return true;
      }
      return false;
    }
  }

  // ---------- runs of one bucket ----------

  predicate Ascending(from: real, times: seq<real>)
    decreases |times|
  {
    |times| == 0 || (from <= times[0] && Ascending(times[0], times[1..]))
  }

  function After(rps: real, b: Bucket, times: seq<real>): Bucket
    decreases |times|
  {
    if |times| == 0 then b else After(rps, Step(rps, b, times[0]), times[1..])
  }

  /** The decisions, one for each request. */
  function Decisions(rps: real, b: Bucket, times: seq<real>): (r: seq<bool>)
    ensures |r| == |times|
    decreases |times|
  {
    if |times| == 0 then [] else [Granted(rps, b, times[0])] + Decisions(rps, Step(rps, b, times[0]), times[1..])
  }

  function Grants(ds: seq<bool>): nat {
    if |ds| == 0 then 0 else (if ds[0] then 1 else 0) + Grants(ds[1..])
  }

  function End(from: real, times: seq<real>): real {
    if |times| == 0 then from else times[|times| - 1]
  }

  lemma GainPositive(rps: real, seconds: real)
    requires rps >= 0.0 && seconds >= 0.0
    ensures Gain(rps, seconds) >= 0.0
  {
  }

  lemma GainAdds(rps: real, s: real, t: real)
    ensures Gain(rps, s) + Gain(rps, t) == Gain(rps, s + t)
  {
  }

  lemma StepWithin(rps: real, b: Bucket, now: real)
    requires rps >= 1.0 && Within(rps, b) && b.last <= now
    ensures Within(rps, Step(rps, b, now))
    ensures Step(rps, b, now).tokens + (if Granted(rps, b, now) then 1.0 else 0.0) <= b.tokens + Gain(rps, now - b.last)
  {
    GainPositive(rps, now - b.last);
    hide Gain;
  }

  lemma {:induction false} RunWithin(rps: real, b: Bucket, times: seq<real>)
    requires rps >= 1.0 && Within(rps, b) && Ascending(b.last, times)
    ensures Within(rps, After(rps, b, times)) && After(rps, b, times).last == End(b.last, times)
    decreases |times|
  {
    if |times| > 0 {
      StepWithin(rps, b, times[0]);
      hide Refilled, Granted;
      RunWithin(rps, Step(rps, b, times[0]), times[1..]);
    }
  }

  /** What is granted is paid for by the tokens at hand and the refill. */
  lemma {:induction false} GrantsPaid(rps: real, b: Bucket, times: seq<real>)
    requires rps >= 1.0 && Within(rps, b) && Ascending(b.last, times)
    ensures Grants(Decisions(rps, b, times)) as real + After(rps, b, times).tokens
            <= b.tokens + Gain(rps, End(b.last, times) - b.last)
    decreases |times|
  {
    if |times| > 0 {
      var c := Step(rps, b, times[0]);
      StepWithin(rps, b, times[0]);
      assert c.last == times[0];
      hide Gain, Refilled, Step, Within, Granted;
      GrantsPaidStep(rps, b, c, times);
    }
  }

  lemma {:induction false} GrantsPaidStep(rps: real, b: Bucket, c: Bucket, times: seq<real>)
    requires rps >= 1.0 && |times| > 0 && c == Step(rps, b, times[0]) && c.last == times[0]
    requires Within(rps, c) && Ascending(b.last, times)
    requires c.tokens + (if Granted(rps, b, times[0]) then 1.0 else 0.0) <= b.tokens + Gain(rps, times[0] - b.last)
    ensures Grants(Decisions(rps, b, times)) as real + After(rps, b, times).tokens
            <= b.tokens + Gain(rps, End(b.last, times) - b.last)
    decreases |times|, 0
  {
    GrantsPaid(rps, c, times[1..]);
    hide Gain, Refilled, Step, Within, Granted;
    var g := if Granted(rps, b, times[0]) then 1 else 0;
    assert Decisions(rps, b, times)[1..] == Decisions(rps, c, times[1..]);
    assert Grants(Decisions(rps, b, times)) == g + Grants(Decisions(rps, c, times[1..]));
    assert End(c.last, times[1..]) == End(b.last, times);
    GainAdds(rps, times[0] - b.last, End(b.last, times) - times[0]);
  }

  /** In any interval at most the capacity plus the refill of the interval is
      admitted: these are the requests of one interval of a longer run, the
      bucket having been left in any state by the requests before. */
  lemma IntervalBound(rps: real, b: Bucket, times: seq<real>)
    requires rps >= 1.0 && Within(rps, b) && |times| > 0 && Ascending(b.last, times)
    ensures Grants(Decisions(rps, b, times)) as real <= rps + Gain(rps, times[|times| - 1] - times[0])
  {
    var now := times[0];
    var c := Bucket(Refilled(rps, b, now), now);
    RefillFirst(rps, b, now);
    assert Decisions(rps, c, times) == Decisions(rps, b, times) by {
      hide Refilled, Granted, Step;
    }
    assert Ascending(c.last, times);
    assert End(c.last, times) - c.last == times[|times| - 1] - times[0];
    hide *;
    GrantsPaid(rps, c, times);
    RunWithin(rps, c, times);
    WithinBounds(rps, c);
    WithinBounds(rps, After(rps, c, times));
  }

  lemma WithinBounds(rps: real, b: Bucket)
    requires Within(rps, b)
    ensures 0.0 <= b.tokens <= rps
  {
  }

  /** Refilling a moment earlier or not makes no difference to a request. */
  lemma RefillFirst(rps: real, b: Bucket, now: real)
    requires rps >= 1.0 && Within(rps, b) && b.last <= now
    ensures var c := Bucket(Refilled(rps, b, now), now);
            Within(rps, c) && Step(rps, c, now) == Step(rps, b, now) && Granted(rps, c, now) == Granted(rps, b, now)
  {
    GainPositive(rps, now - b.last);
    assert Gain(rps, now - now) == 0.0;
    hide Gain;
  }

  lemma {:induction false} DecisionsSplit(rps: real, b: Bucket, p: seq<real>, q: seq<real>)
    ensures Decisions(rps, b, p + q) == Decisions(rps, b, p) + Decisions(rps, After(rps, b, p), q)
    decreases |p|
  {
    hide Granted, Step;
    if |p| == 0 {
      assert p + q == q;
    } else {
      assert (p + q)[1..] == p[1..] + q;
      DecisionsSplit(rps, Step(rps, b, p[0]), p[1..], q);
    }
  }

  lemma {:induction false} AscendingSplit(from: real, p: seq<real>, q: seq<real>)
    requires Ascending(from, p + q)
    ensures Ascending(from, p) && Ascending(End(from, p), q)
    decreases |p|
  {
    if |p| == 0 {
      assert p + q == q;
    } else {
      assert (p + q)[1..] == p[1..] + q;
      AscendingSplit(p[0], p[1..], q);
    }
  }

  /** Any consecutive requests `i` to `j` of a bucket's life: no more are
      admitted than the capacity and the refill between the first and the last
      of them. */
  lemma AnyInterval(rps: real, created: real, times: seq<real>, i: nat, j: nat)
    requires rps >= 1.0 && i < j <= |times| && Ascending(created, times)
    ensures Grants(Decisions(rps, Fresh(rps, created), times)[i..j]) as real <= rps + Gain(rps, times[j - 1] - times[i])
  {
    var b := Fresh(rps, created);
    assert Within(rps, b);
    var p, w, q := times[..i], times[i..j], times[j..];
    SplitTwice(times, i, j);
    hide *;
    DecisionsSplit(rps, b, p, w + q);
    DecisionsSplit(rps, After(rps, b, p), w, q);
    AscendingSplit(created, p, w + q);
    AscendingSplit(End(created, p), w, q);
    assert b.last == created by { FreshLast(rps, created); }
    RunWithin(rps, b, p);
    var d, d' := Decisions(rps, b, p), Decisions(rps, After(rps, b, p), w);
    var d'' := Decisions(rps, After(rps, After(rps, b, p), w), q);
    Middle(d, d', d'', i, j);
    IntervalBound(rps, After(rps, b, p), w);
  }

  lemma SplitTwice<T>(s: seq<T>, i: nat, j: nat)
    requires i <= j <= |s|
    ensures s == s[..i] + (s[i..j] + s[j..])
  {
  }

  lemma Middle<T>(a: seq<T>, b: seq<T>, c: seq<T>, i: nat, j: nat)
    requires |a| == i && |b| == j - i
    ensures (a + (b + c))[i..j] == b
  {
  }

  lemma FreshLast(rps: real, created: real)
    ensures Fresh(rps, created).last == created
  {
  }

  /** At least `gap` between requests, counting from `from`. */
  predicate Spaced(gap: real, from: real, times: seq<real>)
    decreases |times|
  {
    |times| == 0 || (times[0] - from >= gap && Spaced(gap, times[0], times[1..]))
  }

  /** Requests at least 1/rps apart are never refused. */
  lemma {:induction false} SpacedNeverRefused(rps: real, b: Bucket, times: seq<real>)
    requires rps >= 1.0 && Within(rps, b) && Spaced(1.0 / rps, b.last, times)
    ensures forall i :: 0 <= i < |times| ==> Decisions(rps, b, times)[i]
    decreases |times|
  {
    if |times| > 0 {
      GapRefills(rps, times[0] - b.last);
      hide Gain;
      assert Granted(rps, b, times[0]);
      StepWithin(rps, b, times[0]);
      assert Step(rps, b, times[0]).last == times[0];
      hide Refilled, Granted, Within, Step;
      SpacedNeverRefused(rps, Step(rps, b, times[0]), times[1..]);
    }
  }

  lemma GapRefills(rps: real, gap: real)
    requires rps >= 1.0 && gap >= 1.0 / rps
    ensures Gain(rps, gap) >= 1.0 && gap >= 0.0
  {
    assert 1.0 / rps * rps == 1.0;
    assert (gap - 1.0 / rps) * rps >= 0.0;
  }

  /** A fresh bucket grants its first request whenever it comes. */
  lemma FreshGrants(rps: real, created: real, times: seq<real>)
    requires rps >= 1.0 && |times| > 0 && created <= times[0] && Spaced(1.0 / rps, times[0], times[1..])
    ensures forall i :: 0 <= i < |times| ==> Decisions(rps, Fresh(rps, created), times)[i]
  {
    var b := Fresh(rps, created);
    GainPositive(rps, times[0] - created);
    hide Gain;
    assert Granted(rps, b, times[0]);
    SpacedNeverRefused(rps, Step(rps, b, times[0]), times[1..]);
  }

  /** Tokens at hand and gained by the first request, up to the capacity, grant as many
      requests, whenever the rest come. */
  lemma {:induction false} TokensGrant(rps: real, b: Bucket, times: seq<real>)
    requires rps >= 1.0 && Within(rps, b) && Ascending(b.last, times)
    requires |times| as real <= rps
    requires |times| > 0 ==> |times| as real <= b.tokens + Gain(rps, times[0] - b.last)
    ensures forall i :: 0 <= i < |times| ==> Decisions(rps, b, times)[i]
    decreases |times|
  {
    if |times| > 0 {
      var c := Step(rps, b, times[0]);
      StepWithin(rps, b, times[0]);
      assert Granted(rps, b, times[0]) && c.last == times[0] && c.tokens >= |times[1..]| as real;
      if |times| > 1 { GainPositive(rps, times[1] - times[0]); }
      hide Gain, Refilled, Granted, Within, Step;
      TokensGrant(rps, c, times[1..]);
    }
  }

  /** A fresh bucket grants a burst as large as its capacity, whenever it comes. */
  lemma FreshBurst(rps: real, created: real, times: seq<real>)
    requires rps >= 1.0 && Ascending(created, times) && |times| as real <= rps
    ensures forall i :: 0 <= i < |times| ==> Decisions(rps, Fresh(rps, created), times)[i]
  {
    if |times| > 0 { GainPositive(rps, times[0] - created); }
    hide Gain, Decisions;
    TokensGrant(rps, Fresh(rps, created), times);
  }

  /** A request that finds less than one token, gained ones included, is refused. */
  lemma EmptyRefuses(rps: real, b: Bucket, now: real)
    requires b.tokens + (now - b.last) * rps < 1.0
    ensures !Granted(rps, b, now) && Step(rps, b, now).last == now
    ensures rps >= 1.0 ==> Step(rps, b, now).tokens == b.tokens + (now - b.last) * rps
  {
  }

  // ---------- one bucket per client ----------

  /** `created` and `now` are the two clock readings of one request: the first
      is used only when the client's bucket has to be made. */
  datatype Request = Request(ip: string, created: real, now: real)

  ghost function Buckets(m: map<string, TokenBucket>): map<string, Bucket>
    reads m.Values
  {
    map ip | ip in m :: m[ip].State()
  }

  class PerIp {
    const rps: int
    var buckets: map<string, TokenBucket>

    ghost predicate Valid()
      reads this, buckets.Values
    {
      && (forall ip :: ip in buckets ==> buckets[ip].rps == rps as real)
      && (forall ip, jp :: ip in buckets && jp in buckets && ip != jp ==> buckets[ip] != buckets[jp])
    }

    constructor (rps: int)
      ensures Valid() && buckets == map[] && this.rps == rps
    {
      this.rps, buckets := rps, map[];
    }

    method Allow(r: Request) returns (ok: bool)
      requires Valid()
      modifies this, buckets.Values
      ensures Valid() && fresh(buckets.Values - old(buckets.Values))
      ensures ok == PerIpGranted(rps, old(Buckets(buckets)), r)
      ensures Buckets(buckets) == PerIpStep(rps, old(Buckets(buckets)), r)
    {
      if rps <= 0 { return true; }
      hide Granted, Step;
      ghost var before := Buckets(buckets);
      if r.ip !in buckets {
        var b := new TokenBucket(rps, r.created);
        buckets := buckets[r.ip := b];
      }
      assert Buckets(buckets) == before[r.ip := ClientBucket(rps, before, r)];
      ok := buckets[r.ip].Allow(r.now);
      assert Buckets(buckets) == before[r.ip := Step(rps as real, ClientBucket(rps, before, r), r.now)];
    }
  }

  function ClientBucket(rps: int, m: map<string, Bucket>, r: Request): Bucket {
    if r.ip in m then m[r.ip] else Fresh(rps as real, r.created)
  }

  function PerIpGranted(rps: int, m: map<string, Bucket>, r: Request): bool {
    rps <= 0 || Granted(rps as real, ClientBucket(rps, m, r), r.now)
  }

  function PerIpStep(rps: int, m: map<string, Bucket>, r: Request): map<string, Bucket> {
    if rps <= 0 then m else m[r.ip := Step(rps as real, ClientBucket(rps, m, r), r.now)]
  }

  function PerIpDecisions(rps: int, m: map<string, Bucket>, rs: seq<Request>): (ds: seq<bool>)
    ensures |ds| == |rs|
    decreases |rs|
  {
    if |rs| == 0 then [] else [PerIpGranted(rps, m, rs[0])] + PerIpDecisions(rps, PerIpStep(rps, m, rs[0]), rs[1..])
  }

  /** The times of one client's requests. */
  function TimesOf(rs: seq<Request>, ip: string): seq<real> {
    if |rs| == 0 then [] else (if rs[0].ip == ip then [rs[0].now] else []) + TimesOf(rs[1..], ip)
  }

  /** The decisions on one client's requests. */
  function DecisionsOf(rs: seq<Request>, ds: seq<bool>, ip: string): seq<bool>
    requires |rs| == |ds|
  {
    if |rs| == 0 then [] else (if rs[0].ip == ip then [ds[0]] else []) + DecisionsOf(rs[1..], ds[1..], ip)
  }

  /** The first reading with which a bucket for this client would be made. */
  function FirstCreated(rs: seq<Request>, ip: string): real {
    if |rs| == 0 then 0.0 else if rs[0].ip == ip then rs[0].created else FirstCreated(rs[1..], ip)
  }

  /** Clients do not affect each other: the decisions on one client's requests
      are those of a single bucket run on that client's requests alone. */
  lemma {:induction false} PerIpIsOneBucket(rps: int, m: map<string, Bucket>, rs: seq<Request>, ip: string)
    requires rps > 0
    ensures var b := if ip in m then m[ip] else Fresh(rps as real, FirstCreated(rs, ip));
            DecisionsOf(rs, PerIpDecisions(rps, m, rs), ip) == Decisions(rps as real, b, TimesOf(rs, ip))
    decreases |rs|
  {
    hide Granted, Step;
    if |rs| > 0 {
      PerIpIsOneBucket(rps, PerIpStep(rps, m, rs[0]), rs[1..], ip);
      assert PerIpDecisions(rps, m, rs)[1..] == PerIpDecisions(rps, PerIpStep(rps, m, rs[0]), rs[1..]);
      if rs[0].ip == ip {
        assert TimesOf(rs, ip)[0] == rs[0].now && TimesOf(rs, ip)[1..] == TimesOf(rs[1..], ip);
      } else {
        assert TimesOf(rs, ip) == TimesOf(rs[1..], ip);
      }
    }
  }

  /** Without a positive rate there is no limit, and no bucket is made. */
  lemma {:induction false} NoLimit(rps: int, m: map<string, Bucket>, rs: seq<Request>)
    requires rps <= 0
    ensures forall i :: 0 <= i < |rs| ==> PerIpDecisions(rps, m, rs)[i]
    ensures forall r :: PerIpStep(rps, m, r) == m
    decreases |rs|
  {
    if |rs| > 0 { NoLimit(rps, m, rs[1..]); }
  }
}
