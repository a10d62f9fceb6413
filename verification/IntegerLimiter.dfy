/** The rate limiter actor: whole tokens, a refill that truncates, and a
    timestamp that moves only when something was refilled. */
module IntegerLimiter {

  datatype Limiter = Limiter(tokens: int, maxTokens: int, rpm: int, lastMs: int)

  /** Integer division towards zero. */
  function Quotient(a: int, b: int): int
    requires b > 0
  {
    if a >= 0 then a / b else -((-a) / b)
  }

  function Refill(l: Limiter, now: int): int {
    Quotient((now - l.lastMs) * l.rpm, 60000)
  }

  function Min(a: int, b: int): int {
    if a < b then a else b
  }

  function Refilled(l: Limiter, now: int): Limiter {
    if Refill(l, now) > 0 then l.(tokens := Min(l.maxTokens, l.tokens + Refill(l, now)), lastMs := now) else l
  }

  function Granted(l: Limiter, now: int): bool {
    Refilled(l, now).tokens > 0
  }

  function Step(l: Limiter, now: int): Limiter {
    var m := Refilled(l, now);
    if m.tokens > 0 then m.(tokens := m.tokens - 1) else m
  }

  /** What `make_rate_limiter` spawns. */
  function Made(rpm: int, now: int): Limiter {
    Limiter(rpm, rpm, rpm, now)
  }

  class RateLimiter {
    var tokens: int
    var maxTokens: int
    var rpm: int
    var lastMs: int

    ghost function State(): Limiter
      reads this
    {
      Limiter(tokens, maxTokens, rpm, lastMs)
    }

    constructor (rpm: int, now: int)
      ensures State() == Made(rpm, now)
    {
      tokens, maxTokens, this.rpm, lastMs := rpm, rpm, rpm, now;
    }

    method Allow(now: int) returns (ok: bool)
      modifies this
      ensures ok == Granted(old(State()), now) && State() == Step(old(State()), now)
    {
      var elapsed := now - lastMs;
      var refill := Quotient(elapsed * rpm, 60000);
      if refill > 0 {
        tokens := Min(maxTokens, tokens + refill);
        lastMs := now;
      }
      if tokens > 0 {
        tokens := tokens - 1;
        ok := true;
      } else {
        ok := false;
      }
    }

    method Reset(now: int)
      modifies this
      ensures State() == old(State()).(tokens := old(maxTokens), lastMs := now)
    {
      tokens := maxTokens;
      lastMs := now;
    }
  }

  // ---------- runs without a reset ----------

  function After(l: Limiter, times: seq<int>): Limiter
    decreases |times|
  {
    if |times| == 0 then l else After(Step(l, times[0]), times[1..])
  }

  function Grants(l: Limiter, times: seq<int>): nat
    decreases |times|
  {
    if |times| == 0 then 0 else (if Granted(l, times[0]) then 1 else 0) + Grants(Step(l, times[0]), times[1..])
  }

  /** No reading of the clock is later than `end`; readings may go back. */
  predicate Until(end: int, times: seq<int>) {
    forall i :: 0 <= i < |times| ==> times[i] <= end
  }

  predicate Ordinary(l: Limiter) {
    0 <= l.tokens <= l.maxTokens && l.rpm >= 0
  }

  function Product(a: int, b: int): int {
    a * b
  }

  lemma ProductAdds(a: int, b: int, r: int)
    ensures Product(a, r) + Product(b, r) == Product(a + b, r)
  {
  }

  lemma ProductSigns(a: int, r: int)
    requires r >= 0
    ensures a >= 0 ==> Product(a, r) >= 0
    ensures a <= 0 ==> Product(a, r) <= 0
  {
  }

  /** What one call adds is worth no more than the time it moves on. */
  lemma RefillWorth(l: Limiter, now: int)
    requires Ordinary(l)
    ensures var m := Refilled(l, now);
            && Ordinary(m) && m.maxTokens == l.maxTokens && m.rpm == l.rpm && m.lastMs >= l.lastMs
            && (m.lastMs == l.lastMs || m.lastMs == now)
            && 60000 * (m.tokens - l.tokens) <= Product(m.lastMs - l.lastMs, l.rpm)
  {
    ProductSigns(now - l.lastMs, l.rpm);
    assert Refill(l, now) == Quotient(Product(now - l.lastMs, l.rpm), 60000);
    ProductSigns(0, l.rpm);
    hide Product;
  }

  lemma StepWorth(l: Limiter, now: int)
    requires Ordinary(l)
    ensures var m := Step(l, now);
            && Ordinary(m) && m.maxTokens == l.maxTokens && m.rpm == l.rpm && m.lastMs >= l.lastMs
            && (m.lastMs == l.lastMs || m.lastMs == now)
            && 60000 * (m.tokens + (if Granted(l, now) then 1 else 0) - l.tokens) <= Product(m.lastMs - l.lastMs, l.rpm)
  {
    RefillWorth(l, now);
    hide Refill, Product;
  }

  /** Grants are paid for by the tokens at hand and the time the timestamp has
      moved, each refill having been rounded down. */
  lemma {:induction false} GrantsPaid(l: Limiter, times: seq<int>, end: int)
    requires Ordinary(l) && Until(end, times) && l.lastMs <= end
    ensures var m := After(l, times);
            && Ordinary(m) && m.maxTokens == l.maxTokens && m.rpm == l.rpm && l.lastMs <= m.lastMs <= end
            && 60000 * (Grants(l, times) + m.tokens - l.tokens) <= Product(m.lastMs - l.lastMs, l.rpm)
    decreases |times|
  {
    if |times| == 0 {
      ProductSigns(0, l.rpm);
    } else {
      var s := Step(l, times[0]);
      var m := After(s, times[1..]);
      StepWorth(l, times[0]);
      hide Product, Step, Granted;
      GrantsPaid(s, times[1..], end);
      ProductAdds(s.lastMs - l.lastMs, m.lastMs - s.lastMs, l.rpm);
    }
  }

  /** Since creation, with no reset, at most the initial tokens plus the whole
      tokens earned are granted. */
  lemma SinceCreation(rpm: int, created: int, times: seq<int>, end: int)
    requires rpm >= 0 && Until(end, times) && created <= end
    ensures Grants(Made(rpm, created), times) <= rpm + Product(end - created, rpm) / 60000
  {
    var l := Made(rpm, created);
    GrantsPaid(l, times, end);
    var m := After(l, times);
    ProductAdds(m.lastMs - created, end - m.lastMs, rpm);
    ProductSigns(end - m.lastMs, rpm);
    hide Product, Grants, After;
    assert 60000 * (Grants(l, times) - rpm) <= Product(end - created, rpm);
  }

  /** A negative rate never grants anything. */
  lemma {:induction false} NegativeRate(l: Limiter, times: seq<int>)
    requires l.rpm < 0 && l.tokens <= l.maxTokens < 0
    ensures Grants(l, times) == 0
    decreases |times|
  {
    if |times| > 0 {
      assert Step(l, times[0]).tokens <= l.maxTokens;
      NegativeRate(Step(l, times[0]), times[1..]);
    }
  }

  /** In any reset-free window that starts with a call at `times[0]`, fewer
      than maxTokens + 1 + rpm * T / 60000 calls are granted, where T is the
      length of the window. */
  lemma WindowBound(l: Limiter, times: seq<int>, end: int)
    requires Ordinary(l) && |times| > 0 && Until(end, times) && l.lastMs <= end
    ensures 60000 * (Grants(l, times) - l.maxTokens - 1) < Product(end - times[0], l.rpm)
  {
    var start := times[0];
    var r := Refilled(l, start);
    RefillWorth(l, start);
    assert Refill(l, start) == Quotient(Product(start - l.lastMs, l.rpm), 60000);
    SettledStep(l, start);
    assert Grants(r, times) == Grants(l, times) by {
      hide Refilled, Granted, Step;
    }
    GrantsPaid(r, times, end);
    var m := After(r, times);
    ProductAdds(m.lastMs - r.lastMs, end - m.lastMs, l.rpm);
    ProductSigns(end - m.lastMs, l.rpm);
    ProductAdds(start - r.lastMs, end - start, l.rpm);
    ProductSigns(0, l.rpm);
    ProductSigns(start - l.lastMs, l.rpm);
    hide Product, Grants, After;
    assert Product(start - r.lastMs, l.rpm) < 60000;
  }

  /** A second look at the same moment refills nothing. */
  lemma SettledStep(l: Limiter, now: int)
    requires Ordinary(l)
    ensures var r := Refilled(l, now); Step(r, now) == Step(l, now) && Granted(r, now) == Granted(l, now)
  {
    var r := Refilled(l, now);
    if Refill(l, now) > 0 {
      assert (now - r.lastMs) * r.rpm == 0;
      assert Refilled(r, now) == r;
    } else {
      assert r == l;
    }
  }

  // ---------- what is granted for certain ----------

  /** Tokens at hand grant as many requests, whenever they come. */
  lemma {:induction false} TokensGrant(l: Limiter, times: seq<int>)
    requires Ordinary(l) && |times| <= l.tokens
    ensures Grants(l, times) == |times|
    decreases |times|
  {
    if |times| > 0 {
      RefillKeeps(l, times[0]);
      hide Refilled, Refill;
      TokensGrant(Step(l, times[0]), times[1..]);
    }
  }

  lemma RefillKeeps(l: Limiter, now: int)
    requires Ordinary(l)
    ensures var m := Refilled(l, now);
            l.tokens <= m.tokens && Ordinary(m) && m.maxTokens == l.maxTokens
    ensures Step(l, now).maxTokens == l.maxTokens && (l.tokens > 0 ==> Ordinary(Step(l, now)))
  {
    hide Refill;
  }

  /** After a wait worth `k` tokens, these count too, up to the maximum: as many
      requests are granted. */
  lemma WaitGrants(l: Limiter, times: seq<int>, k: nat)
    requires Ordinary(l) && |times| > 0 && times[0] >= l.lastMs
    requires 60000 * k <= (times[0] - l.lastMs) * l.rpm && |times| <= l.maxTokens && |times| <= l.tokens + k
    ensures Grants(l, times) == |times|
  {
    var r := Refilled(l, times[0]);
    RefillsAll(l, times[0], k);
    RefillKeeps(l, times[0]);
    SettledStep(l, times[0]);
    TokensGrant(r, times);
    hide Refilled, Refill, Step, Granted;
  }

  lemma RefillsAll(l: Limiter, now: int, k: nat)
    requires Ordinary(l) && now >= l.lastMs && 60000 * k <= (now - l.lastMs) * l.rpm
    ensures Refilled(l, now).tokens >= Min(l.maxTokens, l.tokens + k)
  {
    var p := (now - l.lastMs) * l.rpm;
    assert p / 60000 >= k;
    assert Refill(l, now) == p / 60000;
  }

  /** After a minute the limiter is full again. */
  lemma MinuteGrants(l: Limiter, times: seq<int>)
    requires Ordinary(l) && |times| > 0 && times[0] - l.lastMs >= 60000 && |times| <= l.maxTokens <= l.rpm
    ensures Grants(l, times) == |times|
  {
    assert 60000 * l.rpm <= (times[0] - l.lastMs) * l.rpm;
    WaitGrants(l, times, l.rpm);
  }

  /** A new limiter grants as many requests as its rate says, whenever they come. */
  lemma NewGrants(rpm: int, created: int, times: seq<int>)
    requires |times| <= rpm
    ensures Grants(Made(rpm, created), times) == |times|
  {
    TokensGrant(Made(rpm, created), times);
  }

  /** A limiter without tokens that has not earned one refuses. */
  lemma EmptyRefuses(l: Limiter, now: int)
    requires Ordinary(l) && l.tokens == 0 && (now - l.lastMs) * l.rpm < 60000
    ensures !Granted(l, now) && Step(l, now) == l
  {
    assert Refill(l, now) <= 0;
  }
}
