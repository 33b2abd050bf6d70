// Backoff and the retry loops of HttpClient (sdk/src/retry.ts, sdk/src/http.ts).
module Retry {
  import opened Wrappers

  // Numbers are reals: maxRetries need not be whole.
  datatype RetryConfig = RetryConfig(
    enabled: Option<bool>, initialDelayMs: Option<real>, maxDelayMs: Option<real>, maxRetries: Option<real>)

  datatype Config = Config(enabled: bool, initialDelayMs: real, maxDelayMs: real, maxRetries: real)

  const HTTP_RETRY_DEFAULTS := Config(true, 1000.0, 10000.0, 3.0)

  function OrDefault<T>(value: Option<T>, default: T): T {
    if value.Some? then value.value else default
  }

  function NormalizeRetryConfig(retry: Option<RetryConfig>, defaults: Config): Config {
    match retry
    case None => defaults
    case Some(r) =>
      Config(OrDefault(r.enabled, defaults.enabled), OrDefault(r.initialDelayMs, defaults.initialDelayMs),
             OrDefault(r.maxDelayMs, defaults.maxDelayMs), OrDefault(r.maxRetries, defaults.maxRetries))
  }

  // ------------------------------------------------------------------
  // Backoff
  // ------------------------------------------------------------------

  function Pow2(n: nat): (r: real)
    ensures r >= 1.0
  {
    if n == 0 then 1.0 else 2.0 * Pow2(n - 1)
  }

  // Multiplication, named so that proofs can set it aside.
  function Times(a: real, b: real): real {
    a * b
  }

  function Min(a: real, b: real): real {
    if a <= b then a else b
  }

  function Base(attempt: int, cfg: Config): real {
    Min(cfg.maxDelayMs, Times(cfg.initialDelayMs, Pow2(if attempt > 0 then attempt else 0)))
  }

  // The random draw is a parameter.
  function Jittered(base: real, draw: real): real {
    var jitter := base * 0.2;
    base - jitter + Times(draw, jitter * 2.0)
  }

  function ComputeBackoffMs(attempt: int, cfg: Config, draw: real): int {
    var d := Jittered(Base(attempt, cfg), draw).Floor;
    if d > 0 then d else 0
  }

  predicate Draw(u: real) {
    0.0 <= u < 1.0
  }

  // A delay is never negative, lies within 20% of its base (rounded down), and
  // is 0 for a negative base.
  lemma BackoffBounds(attempt: int, cfg: Config, draw: real)
    requires Draw(draw)
    ensures
      var b, d := Base(attempt, cfg), ComputeBackoffMs(attempt, cfg, draw);
      && d >= 0
      && (b >= 0.0 ==> (0.8 * b).Floor <= d && d as real <= 1.2 * b)
      && (b <= 0.0 ==> d == 0)
  {
    var b := Base(attempt, cfg);
    WithinFifth(b, draw);
    hide Base, Jittered;
  }

  // `x` doubled `i` times.
  function Doubled(x: real, i: nat): real {
    if i == 0 then x else 2.0 * Doubled(x, i - 1)
  }

  // The delay before jitter: the initial one, doubled at each attempt, up to the
  // largest.
  function Capped(i: nat, cfg: Config): real {
    var grown := Doubled(cfg.initialDelayMs, i);
    if grown > cfg.maxDelayMs then cfg.maxDelayMs else grown
  }

  lemma {:induction false} DoubledPow2(x: real, i: nat)
    ensures Doubled(x, i) == Times(x, Pow2(i))
  {
    if i > 0 {
      DoubledPow2(x, i - 1);
      assert x * (2.0 * Pow2(i - 1)) == 2.0 * (x * Pow2(i - 1));
    }
  }

  // Exactly: for settings that are not negative a delay is the whole part of its
  // doubled, capped delay moved by the draw between four and six fifths of it.
  lemma BackoffExactly(i: nat, cfg: Config, draw: real)
    requires Draw(draw) && cfg.initialDelayMs >= 0.0 && cfg.maxDelayMs >= 0.0
    ensures
      var b, d := Capped(i, cfg), ComputeBackoffMs(i, cfg, draw) as real;
      && b >= 0.0
      && d <= 0.8 * b + draw * (0.4 * b) < d + 1.0
      && (0.8 * b).Floor as real <= d <= 1.2 * b
      && (draw == 0.0 ==> d == (0.8 * b).Floor as real)
  {
    DoubledPow2(cfg.initialDelayMs, i);
    Product(cfg.initialDelayMs, Pow2(i));
    var b := Capped(i, cfg);
    assert b == Base(i, cfg) && b >= 0.0;
    BackoffBounds(i, cfg, draw);
    hide Base, Capped;
    assert Jittered(b, draw) == 0.8 * b + draw * (0.4 * b);
    WithinFifth(b, draw);
    Product(b, draw);
  }

  // Attempts below 0 count as 0.
  lemma FirstDelays(i: int, cfg: Config, draw: real)
    requires i <= 0
    ensures ComputeBackoffMs(i, cfg, draw) == ComputeBackoffMs(0, cfg, draw)
  {
  }

  lemma WithinFifth(b: real, draw: real)
    requires Draw(draw)
    ensures b >= 0.0 ==> 0.8 * b <= Jittered(b, draw) <= 1.2 * b
    ensures b < 0.0 ==> Jittered(b, draw) < 0.0
  {
    Scaled(draw, b * 0.2 * 2.0);
    hide Times;
  }

  lemma Scaled(u: real, w: real)
    requires Draw(u)
    ensures w >= 0.0 ==> 0.0 <= Times(u, w) <= w
    ensures w <= 0.0 ==> w <= Times(u, w) <= 0.0
  {
    if w >= 0.0 {
      Product(u, w);
      Product(1.0 - u, w);
      assert (1.0 - u) * w == w - u * w;
    } else {
      Product(u, -w);
      Product(1.0 - u, -w);
      assert u * -w == -(u * w);
      assert (1.0 - u) * -w == -w + u * w;
    }
  }

  lemma Product(a: real, b: real)
    requires a >= 0.0 && b >= 0.0
    ensures a * b >= 0.0
  {
  }

  // ------------------------------------------------------------------
  // The delays of one run
  // ------------------------------------------------------------------

  function Delays(n: nat, cfg: Config, draws: nat -> real): (d: seq<int>) {
    seq(n, i requires 0 <= i => ComputeBackoffMs(i, cfg, draws(i)))
  }

  function Sum(delays: seq<int>): int {
    if delays == [] then 0 else Sum(delays[..|delays| - 1]) + delays[|delays| - 1]
  }

  // With delays that may not be negative, n of them take at most 1.2 times both
  // n * maxDelayMs and initialDelayMs * (2^n - 1); otherwise they take no time.
  lemma {:induction false} TotalDelay(n: nat, cfg: Config, draws: nat -> real)
    requires forall i :: Draw(draws(i))
    ensures
      var total := Sum(Delays(n, cfg, draws)) as real;
      && total >= 0.0
      && (cfg.initialDelayMs >= 0.0 && cfg.maxDelayMs >= 0.0 ==> total <= 1.2 * Ceiling(n, cfg))
      && (cfg.initialDelayMs <= 0.0 || cfg.maxDelayMs <= 0.0 ==> total == 0.0)
  {
    if n > 0 {
      TotalDelay(n - 1, cfg, draws);
      var before, d := Delays(n - 1, cfg, draws), ComputeBackoffMs(n - 1, cfg, draws(n - 1));
      assert Delays(n, cfg, draws)[..n - 1] == before;
      assert Sum(Delays(n, cfg, draws)) == Sum(before) + d;
      BackoffBounds(n - 1, cfg, draws(n - 1));
      CeilingStep(n, cfg);
      hide *;
    }
  }

  function CappedSum(n: nat, cfg: Config): real {
    if n == 0 then 0.0 else CappedSum(n - 1, cfg) + Capped(n - 1, cfg)
  }

  // Both ends of the time that n delays take together.
  lemma {:induction false} TotalDelayWithin(n: nat, cfg: Config, draws: nat -> real)
    requires (forall i :: Draw(draws(i))) && cfg.initialDelayMs >= 0.0 && cfg.maxDelayMs >= 0.0
    ensures
      var total := Sum(Delays(n, cfg, draws)) as real;
      0.8 * CappedSum(n, cfg) - n as real <= total <= 1.2 * CappedSum(n, cfg)
  {
    if n > 0 {
      TotalDelayWithin(n - 1, cfg, draws);
      var before, d := Delays(n - 1, cfg, draws), ComputeBackoffMs(n - 1, cfg, draws(n - 1));
      assert Delays(n, cfg, draws)[..n - 1] == before;
      assert Sum(Delays(n, cfg, draws)) == Sum(before) + d;
      BackoffExactly(n - 1, cfg, draws(n - 1));
      assert CappedSum(n, cfg) == CappedSum(n - 1, cfg) + Capped(n - 1, cfg);
      assert n as real == (n - 1) as real + 1.0;
      var b := Capped(n - 1, cfg);
      assert (0.8 * b).Floor as real > 0.8 * b - 1.0;
      hide *;
    }
  }

  // Until the largest delay is reached the delays before jitter sum to
  // initialDelayMs * (2^n - 1), and from there on each is the largest.
  lemma {:induction false} CappedSumIs(n: nat, cfg: Config)
    requires cfg.initialDelayMs >= 0.0
    ensures Doubled(cfg.initialDelayMs, if n == 0 then 0 else n - 1) <= cfg.maxDelayMs ==>
              CappedSum(n, cfg) == Doubled(cfg.initialDelayMs, n) - cfg.initialDelayMs
    ensures n > 0 && Doubled(cfg.initialDelayMs, n - 1) >= cfg.maxDelayMs ==>
              CappedSum(n, cfg) == CappedSum(n - 1, cfg) + cfg.maxDelayMs
  {
    if n > 1 {
      DoubledGrows(cfg.initialDelayMs, n - 2);
      CappedSumIs(n - 1, cfg);
    }
    if n == 1 {
      assert CappedSum(0, cfg) == 0.0;
    }
  }

  lemma {:induction false} DoubledGrows(x: real, i: nat)
    requires x >= 0.0
    ensures 0.0 <= Doubled(x, i) <= Doubled(x, i + 1)
  {
    if i > 0 {
      DoubledGrows(x, i - 1);
    }
  }

  function Ceiling(n: nat, cfg: Config): real {
    Min(Times(n as real, cfg.maxDelayMs), Times(cfg.initialDelayMs, Pow2(n) - 1.0))
  }

  lemma CeilingStep(n: nat, cfg: Config)
    requires n > 0
    ensures Ceiling(n - 1, cfg) + Base(n - 1, cfg) <= Ceiling(n, cfg)
  {
    var count, power := (n - 1) as real, Pow2(n - 1);
    assert n as real == count + 1.0 && Pow2(n) - 1.0 == (power - 1.0) + power;
    assert Times(1.0, cfg.maxDelayMs) == cfg.maxDelayMs;
    hide Times, Pow2;
  }

  // ------------------------------------------------------------------
  // The fetch loops
  // ------------------------------------------------------------------

  datatype Error = TypeError(message: string) | OtherError(message: string) | HttpError(status: int) | NoAttempt

  // What decoding the body gives.
  datatype Body = Value(text: string) | Undecodable(error: Error)

  datatype Reply = Response(status: int, body: Body) | Failed(error: Error)

  datatype Result = Parsed(text: string) | Raw(reply: Reply) | Thrown(error: Error)

  predicate Ok(status: int) {
    200 <= status < 300
  }

  predicate IsRetryableStatus(status: int) {
    500 <= status < 600
  }

  // What a caller sees if this reply is the last one.
  function Outcome(reply: Reply, json: bool): Result {
    match reply
    case Failed(error) => Thrown(error)
    case Response(status, body) =>
      if !Ok(status) then Thrown(HttpError(status))
      else if !json then Raw(reply)
      else match body
        case Value(text) => Parsed(text)
        case Undecodable(error) => Thrown(error)
  }

  // Server errors and type errors are worth another attempt; a type error while
  // decoding the body of a successful reply is one of them.
  predicate Retryable(reply: Reply, json: bool) {
    var o := Outcome(reply, json);
    && o.Thrown?
    && ((reply.Response? && !Ok(reply.status) && IsRetryableStatus(reply.status))
        || ((reply.Response? ==> Ok(reply.status)) && o.error.TypeError?))
  }

  // How many of the replies from `i` on, at most `n`, are retryable in a row.
  function Leading(replies: nat -> Reply, json: bool, i: nat, n: nat): (k: nat)
    ensures k <= n
    decreases n
  {
    if n == 0 || !Retryable(replies(i), json) then 0 else 1 + Leading(replies, json, i + 1, n - 1)
  }

  function Requests(cfg: Config, replies: nat -> Reply, json: bool): nat {
    if cfg.maxRetries < 0.0 then 0
    else if !cfg.enabled then 1
    else 1 + Leading(replies, json, 0, cfg.maxRetries.Floor)
  }

  function Ceil(x: real): int {
    -((-x).Floor)
  }

  // How often the loop sleeps and tries again: attempt `a` may while a < maxRetries.
  function Retries(cfg: Config, replies: nat -> Reply, json: bool): nat {
    if cfg.maxRetries < 0.0 || !cfg.enabled then 0 else Leading(replies, json, 0, Ceil(cfg.maxRetries))
  }

  // Every attempt that the loop's test allows is made and retried.
  ghost predicate NothingSettles(cfg: Config, replies: nat -> Reply, json: bool) {
    || cfg.maxRetries < 0.0
    || (cfg.enabled && cfg.maxRetries != cfg.maxRetries.Floor as real
        && forall i: nat :: i <= cfg.maxRetries.Floor ==> Retryable(replies(i), json))
  }

  lemma {:induction false} LeadingSkip(replies: nat -> Reply, json: bool, i: nat, k: nat, n: nat)
    requires k <= n && forall j :: i <= j < i + k ==> Retryable(replies(j), json)
    ensures Leading(replies, json, i, n) == k + Leading(replies, json, i + k, n - k)
    decreases k
  {
    if k > 0 {
      LeadingSkip(replies, json, i + 1, k - 1, n - 1);
    }
  }

  // The loop as seen from inside: every reply so far was retried.
  ghost predicate Retried(cfg: Config, replies: nat -> Reply, json: bool, attempt: nat) {
    && (forall i :: 0 <= i < attempt ==> Retryable(replies(i), json))
    && (attempt > 0 ==> cfg.enabled && (attempt - 1) as real < cfg.maxRetries)
  }

  lemma StopsAt(cfg: Config, replies: nat -> Reply, json: bool, attempt: nat)
    requires Retried(cfg, replies, json, attempt) && attempt as real <= cfg.maxRetries
    requires !Retryable(replies(attempt), json) || !cfg.enabled || attempt as real == cfg.maxRetries
    ensures Requests(cfg, replies, json) == attempt + 1 && Retries(cfg, replies, json) == attempt
    ensures !NothingSettles(cfg, replies, json)
  {
    if cfg.enabled {
      LeadingSkip(replies, json, 0, attempt, cfg.maxRetries.Floor);
      LeadingSkip(replies, json, 0, attempt, Ceil(cfg.maxRetries));
      assert attempt <= cfg.maxRetries.Floor;
    }
  }

  lemma RunsOut(cfg: Config, replies: nat -> Reply, json: bool, attempt: nat)
    requires Retried(cfg, replies, json, attempt) && attempt as real > cfg.maxRetries
    ensures Requests(cfg, replies, json) == attempt == Retries(cfg, replies, json)
    ensures NothingSettles(cfg, replies, json)
  {
    if attempt > 0 {
      var n := cfg.maxRetries.Floor;
      assert n == attempt - 1 && Ceil(cfg.maxRetries) == attempt;
      LeadingSkip(replies, json, 0, n, n);
      LeadingSkip(replies, json, 0, attempt, attempt);
    }
  }

  // The number of requests: everything before the last reply was retryable, and
  // the last one was not unless the retries were used up.
  lemma RequestsExactly(cfg: Config, replies: nat -> Reply, json: bool)
    ensures
      var n := Requests(cfg, replies, json);
      && (n == 0 <==> cfg.maxRetries < 0.0)
      && (n > 0 ==> n <= cfg.maxRetries.Floor + 1)
      && (n > 1 ==> cfg.enabled && forall i :: 0 <= i < n - 1 ==> Retryable(replies(i), json))
      && (n > 0 && cfg.enabled && n < cfg.maxRetries.Floor + 1 ==> !Retryable(replies(n - 1), json))
  {
    if cfg.maxRetries >= 0.0 && cfg.enabled {
      LeadingRun(replies, json, 0, cfg.maxRetries.Floor);
    }
  }

  lemma {:induction false} LeadingRun(replies: nat -> Reply, json: bool, i: nat, n: nat)
    ensures
      var k := Leading(replies, json, i, n);
      && (forall j :: i <= j < i + k ==> Retryable(replies(j), json))
      && (k < n ==> !Retryable(replies(i + k), json))
    decreases n
  {
    if n > 0 && Retryable(replies(i), json) {
      LeadingRun(replies, json, i + 1, n - 1);
    }
  }

  class HttpClient {
    const retryCfg: Config

    constructor (retry: Option<RetryConfig>)
      ensures retryCfg == NormalizeRetryConfig(retry, HTTP_RETRY_DEFAULTS)
    {
      retryCfg := NormalizeRetryConfig(retry, HTTP_RETRY_DEFAULTS);
    }

    // No request at all gives the generic error; otherwise the last reply decides.
    function Verdict(replies: nat -> Reply, json: bool): Result {
      var requests := Requests(retryCfg, replies, json);
      if requests == 0 then Thrown(NoAttempt) else Outcome(replies(requests - 1), json)
    }

    // `fellThrough` says that the call ended in the throw behind the loop.
    method FetchJson(replies: nat -> Reply, draws: nat -> real)
      returns (r: Result, requests: nat, delays: seq<int>, fellThrough: bool)
      ensures requests == Requests(retryCfg, replies, true)
      ensures delays == Delays(Retries(retryCfg, replies, true), retryCfg, draws)
      ensures fellThrough <==> NothingSettles(retryCfg, replies, true)
      ensures r == Verdict(replies, true)
    {
      var lastError := NoAttempt;
      var attempt := 0;
      delays := [];
      while attempt as real <= retryCfg.maxRetries
        invariant Retried(retryCfg, replies, true, attempt)
        invariant delays == Delays(attempt, retryCfg, draws)
        invariant Thrown(lastError) == if attempt == 0 then Thrown(NoAttempt) else Outcome(replies(attempt - 1), true)
        decreases retryCfg.maxRetries.Floor - attempt
      {
        var resp := replies(attempt);
        var thrown: Error;
        if resp.Response? {
          if !Ok(resp.status) {
            thrown := HttpError(resp.status);
            if retryCfg.enabled && IsRetryableStatus(resp.status) && attempt as real < retryCfg.maxRetries {
              lastError := thrown;
              delays := delays + [ComputeBackoffMs(attempt, retryCfg, draws(attempt))];
              attempt := attempt + 1;
              continue;
            }
          } else if resp.body.Value? {
            StopsAt(retryCfg, replies, true, attempt);
            return Parsed(resp.body.text), attempt + 1, delays, false;
          } else {
            thrown := resp.body.error;
          }
        } else {
          thrown := resp.error;
        }
        if thrown.TypeError? && retryCfg.enabled && attempt as real < retryCfg.maxRetries {
          lastError := thrown;
          delays := delays + [ComputeBackoffMs(attempt, retryCfg, draws(attempt))];
          attempt := attempt + 1;
          continue;
        }
        StopsAt(retryCfg, replies, true, attempt);
        return Thrown(thrown), attempt + 1, delays, false;
      }
      RunsOut(retryCfg, replies, true, attempt);
      return Thrown(lastError), attempt, delays, true;
    }

    // `fellThrough` says that the call ended in the throw behind the loop.
    method FetchRaw(replies: nat -> Reply, draws: nat -> real)
      returns (r: Result, requests: nat, delays: seq<int>, fellThrough: bool)
      ensures requests == Requests(retryCfg, replies, false)
      ensures delays == Delays(Retries(retryCfg, replies, false), retryCfg, draws)
      ensures fellThrough <==> NothingSettles(retryCfg, replies, false)
      ensures r == Verdict(replies, false)
    {
      var lastError := NoAttempt;
      var attempt := 0;
      delays := [];
      while attempt as real <= retryCfg.maxRetries
        invariant Retried(retryCfg, replies, false, attempt)
        invariant delays == Delays(attempt, retryCfg, draws)
        invariant Thrown(lastError) == if attempt == 0 then Thrown(NoAttempt) else Outcome(replies(attempt - 1), false)
        decreases retryCfg.maxRetries.Floor - attempt
      {
        var resp := replies(attempt);
        var thrown: Error;
        if resp.Response? {
          if !Ok(resp.status) {
            thrown := HttpError(resp.status);
            if retryCfg.enabled && IsRetryableStatus(resp.status) && attempt as real < retryCfg.maxRetries {
              lastError := thrown;
              delays := delays + [ComputeBackoffMs(attempt, retryCfg, draws(attempt))];
              attempt := attempt + 1;
              continue;
            }
          } else {
            StopsAt(retryCfg, replies, false, attempt);
            return Raw(resp), attempt + 1, delays, false;
          }
        } else {
          thrown := resp.error;
        }
        if thrown.TypeError? && retryCfg.enabled && attempt as real < retryCfg.maxRetries {
          lastError := thrown;
          delays := delays + [ComputeBackoffMs(attempt, retryCfg, draws(attempt))];
          attempt := attempt + 1;
          continue;
        }
        StopsAt(retryCfg, replies, false, attempt);
        return Thrown(thrown), attempt + 1, delays, false;
      }
      RunsOut(retryCfg, replies, false, attempt);
      return Thrown(lastError), attempt, delays, true;
    }
  }

  // The throw behind the loop is reached, after a retry of every request made,
  // if and only if maxRetries is negative, or retries are on, maxRetries is not
  // whole and every attempt up to its floor gets a retryable reply.
  lemma TrailingThrowExactly(cfg: Config, replies: nat -> Reply, json: bool)
    ensures Retries(cfg, replies, json) == Requests(cfg, replies, json) <==> NothingSettles(cfg, replies, json)
    ensures cfg.maxRetries >= 0.0 && cfg.maxRetries == cfg.maxRetries.Floor as real ==>
              Requests(cfg, replies, json) == Retries(cfg, replies, json) + 1
  {
    if cfg.maxRetries >= 0.0 && cfg.enabled {
      var n, c := cfg.maxRetries.Floor, Ceil(cfg.maxRetries);
      LeadingRun(replies, json, 0, n);
      var k := Leading(replies, json, 0, n);
      LeadingSkip(replies, json, 0, k, c);
      if k == n && c == n + 1 && Retryable(replies(n), json) {
        assert Leading(replies, json, n, 1) == 1;
        assert NothingSettles(cfg, replies, json);
      } else if k < n {
        assert !Retryable(replies(k), json);
      }
    }
  }

  // It is reached: half a retry, and a server that always fails.
  lemma HalfRetry()
    ensures
      var cfg := HTTP_RETRY_DEFAULTS.(maxRetries := 0.5);
      var down := (i: nat) => Response(503, Value(""));
      Requests(cfg, down, true) == 1 && Retries(cfg, down, true) == 1 && NothingSettles(cfg, down, true)
  {
    var cfg := HTTP_RETRY_DEFAULTS.(maxRetries := 0.5);
    var down := (i: nat) => Response(503, Value(""));
    assert cfg.maxRetries.Floor == 0 && Ceil(cfg.maxRetries) == 1;
    assert Retryable(down(0), true);
    RunsOut(cfg, down, true, 1);
  }

  // Worth another attempt, stated on the reply: a server error, a failed
  // connection, or a success whose body cannot be decoded for a type error.
  predicate Transient(reply: Reply, json: bool) {
    match reply
    case Failed(error) => error.TypeError?
    case Response(status, body) =>
      || 500 <= status <= 599
      || (json && 200 <= status <= 299 && body.Undecodable? && body.error.TypeError?)
  }

  lemma RetryableExactly(reply: Reply, json: bool)
    ensures Retryable(reply, json) <==> Transient(reply, json)
  {
  }

  // What the caller gets, in full: the first reply that is not transient, or the
  // last one allowed, ends the call, a success with its value and anything else
  // with its error.
  lemma FirstSettled(client: HttpClient, replies: nat -> Reply, json: bool, i: nat)
    requires (client.retryCfg.enabled || i == 0) && i as real <= client.retryCfg.maxRetries
    requires forall j :: 0 <= j < i ==> Transient(replies(j), json)
    requires Transient(replies(i), json) ==> !client.retryCfg.enabled || i as real == client.retryCfg.maxRetries
    ensures Requests(client.retryCfg, replies, json) == i + 1 && Retries(client.retryCfg, replies, json) == i
    ensures
      client.Verdict(replies, json) == match replies(i)
        case Failed(error) => Thrown(error)
        case Response(status, body) =>
          if status < 200 || status > 299 then Thrown(HttpError(status))
          else if !json then Raw(replies(i))
          else if body.Value? then Parsed(body.text)
          else Thrown(body.error)
  {
    assert forall j :: 0 <= j < i ==> Retryable(replies(j), json);
    RetryableExactly(replies(i), json);
    StopsAt(client.retryCfg, replies, json, i);
  }

  // Settings given to the client win, an explicit 0 and an explicit false too;
  // a setting that is not given is the default's.
  lemma ClientSettings(retry: Option<RetryConfig>, replies: nat -> Reply, json: bool)
    ensures
      var cfg := NormalizeRetryConfig(retry, HTTP_RETRY_DEFAULTS);
      var n := Requests(cfg, replies, json);
      && (retry.Some? && retry.value.enabled == Some(false) ==> Retries(cfg, replies, json) == 0 && n <= 1)
      && (retry.Some? && retry.value.maxRetries == Some(0.0) ==> n == 1 && Retries(cfg, replies, json) == 0)
      && (retry.Some? && retry.value.maxRetries.Some? ==>
            n <= if retry.value.maxRetries.value < 0.0 then 0 else retry.value.maxRetries.value.Floor + 1)
      && (retry.None? || retry.value.maxRetries.None? ==> 1 <= n <= 4)
  {
    var cfg := NormalizeRetryConfig(retry, HTTP_RETRY_DEFAULTS);
    RequestsExactly(cfg, replies, json);
  }

  // With the defaults a call makes at most four requests and sleeps at most 8.4 s.
  lemma DefaultBudget(replies: nat -> Reply, draws: nat -> real, json: bool)
    requires forall i :: Draw(draws(i))
    ensures Requests(HTTP_RETRY_DEFAULTS, replies, json) <= 4
    ensures Requests(HTTP_RETRY_DEFAULTS, replies, json) == Retries(HTTP_RETRY_DEFAULTS, replies, json) + 1
    ensures 0 <= Sum(Delays(Retries(HTTP_RETRY_DEFAULTS, replies, json), HTTP_RETRY_DEFAULTS, draws)) <= 8400
  {
    var cfg := HTTP_RETRY_DEFAULTS;
    var n := Requests(cfg, replies, json);
    assert cfg.maxRetries.Floor == 3;
    TrailingThrowExactly(cfg, replies, json);
    TotalDelay(n - 1, cfg, draws);
    assert Pow2(0) == 1.0 && Pow2(1) == 2.0 && Pow2(2) == 4.0 && Pow2(3) == 8.0;
    assert n - 1 == 0 || n - 1 == 1 || n - 1 == 2 || n - 1 == 3;
    assert Times(1000.0, Pow2(n - 1) - 1.0) <= 7000.0;
    assert Ceiling(n - 1, cfg) <= 7000.0;
  }

  // Three retries with the defaults sleep 5.6 to 8.4 s, so a server has that long
  // to come back.
  lemma DefaultRetriesTake(draws: nat -> real)
    requires forall i :: Draw(draws(i))
    ensures 5600 <= Sum(Delays(3, HTTP_RETRY_DEFAULTS, draws)) <= 8400
  {
    var cfg := HTTP_RETRY_DEFAULTS;
    var a, b, c := ComputeBackoffMs(0, cfg, draws(0)), ComputeBackoffMs(1, cfg, draws(1)), ComputeBackoffMs(2, cfg, draws(2));
    DefaultDelay(0, 1000, draws(0));
    DefaultDelay(1, 2000, draws(1));
    DefaultDelay(2, 4000, draws(2));
    assert Delays(3, cfg, draws) == [a, b, c];
    SumThree(a, b, c);
    hide *;
  }

  lemma SumThree(a: int, b: int, c: int)
    ensures Sum([a, b, c]) == a + b + c
  {
    assert [a, b, c][..2] == [a, b] && [a, b][..1] == [a] && [a][..0] == [];
    assert Sum([a]) == Sum([]) + a && Sum([a, b]) == Sum([a]) + b;
  }

  lemma DefaultDelay(i: nat, base: nat, draw: real)
    requires Draw(draw) && i <= 2 && base == if i == 0 then 1000 else if i == 1 then 2000 else 4000
    ensures 4 * base <= 5 * ComputeBackoffMs(i, HTTP_RETRY_DEFAULTS, draw) <= 6 * base
  {
    var cfg := HTTP_RETRY_DEFAULTS;
    assert Doubled(1000.0, 0) == 1000.0 && Doubled(1000.0, 1) == 2000.0 && Doubled(1000.0, 2) == 4000.0;
    BackoffExactly(i, cfg, draw);
    assert Capped(i, cfg) == base as real;
    assert (0.8 * base as real).Floor as real == 0.8 * base as real;
  }
}
