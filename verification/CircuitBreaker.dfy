/** The provider client: circuit breaker, retries and request pacing (app/services/http.py). */
module CircuitBreaker {
  import opened Outcomes
  import opened Division
  import opened RateLimit

  /** `threshold` failures open the circuit for `reset`; times and durations are in one clock unit. */
  datatype Config = Config(threshold: int, reset: nat, maxRetries: nat, interval: nat)

  datatype Breaker = Breaker(failures: nat, openedAt: Option<int>)

  /**
   * A good answer; a timeout, network error, 429 or 5xx; any other HTTP error or a body that is no JSON; or an
   * exception that neither handler names, as when the provider closes the connection without an answer.
   */
  datatype Reply = Good | Transient | Permanent | Escaped

  /** One transport attempt: time until pacing starts, oversleep, time in flight, the answer, and the wait before a retry. */
  datatype Try = Try(idle: nat, oversleep: nat, inFlight: nat, reply: Reply, retryDelay: nat)

  /** `Refused` by the circuit without an attempt; `Raised` where an exception escaped. */
  datatype Outcome = Refused | Answered | Unavailable | Rejected | Raised

  // ---- The breaker ----

  function Closed(): Breaker { Breaker(0, None) }

  predicate Admits(cfg: Config, b: Breaker, now: int) {
    b.openedAt.None? || now - b.openedAt.value >= cfg.reset
  }

  /** The breaker after `before_request` let a request through. */
  function Admitted(b: Breaker): Breaker {
    if b.openedAt.None? then b else Closed()
  }

  function Failed(cfg: Config, b: Breaker, now: int): Breaker {
    Breaker(b.failures + 1, if b.failures + 1 >= cfg.threshold then Some(now) else b.openedAt)
  }

  /** Open exactly when the failures have reached the threshold. */
  predicate Sound(cfg: Config, b: Breaker) {
    b.openedAt.Some? <==> b.failures >= cfg.threshold
  }

  // ---- One request ----

  function Larger(a: int, b: int): int { if a >= b then a else b }

  /** What the retry loop leaves: the pacing mark, the clock, the release times and the last answer. */
  datatype Trail = Trail(next: int, later: int, releases: seq<int>, reply: Reply)

  function Tries(cfg: Config, next: int, now: int, tries: nat -> Try, k: nat): Trail
    requires k <= cfg.maxRetries
    decreases cfg.maxRetries - k
  {
    var t := tries(k);
    var released := Larger(now + t.idle, next) + t.oversleep;
    var answered := released + t.inFlight;
    if t.reply.Transient? && k < cfg.maxRetries then
      var rest := Tries(cfg, released + cfg.interval, answered + t.retryDelay, tries, k + 1);
      rest.(releases := [released] + rest.releases)
    else Trail(released + cfg.interval, answered, [released], t.reply)
  }

  lemma TriesUnfold(cfg: Config, next: int, now: int, tries: nat -> Try, k: nat)
    requires k <= cfg.maxRetries
    ensures var t := tries(k);
      var released := Larger(now + t.idle, next) + t.oversleep;
      Tries(cfg, next, now, tries, k) ==
        if t.reply.Transient? && k < cfg.maxRetries then
          var rest := Tries(cfg, released + cfg.interval, released + t.inFlight + t.retryDelay, tries, k + 1);
          rest.(releases := [released] + rest.releases)
        else Trail(released + cfg.interval, released + t.inFlight, [released], t.reply)
  {
  }

  /** The same, after the releases already made. */
  function TriesFrom(cfg: Config, next: int, now: int, tries: nat -> Try, k: nat, made: seq<int>): Trail
    requires k <= cfg.maxRetries
    decreases cfg.maxRetries - k
  {
    var t := tries(k);
    var released := Larger(now + t.idle, next) + t.oversleep;
    if t.reply.Transient? && k < cfg.maxRetries then
      TriesFrom(cfg, released + cfg.interval, released + t.inFlight + t.retryDelay, tries, k + 1, made + [released])
    else Trail(released + cfg.interval, released + t.inFlight, made + [released], t.reply)
  }

  lemma TriesFromStep(cfg: Config, next: int, now: int, tries: nat -> Try, k: nat, made: seq<int>)
    requires k <= cfg.maxRetries
    ensures var t := tries(k);
      var released := Larger(now + t.idle, next) + t.oversleep;
      TriesFrom(cfg, next, now, tries, k, made) ==
        if t.reply.Transient? && k < cfg.maxRetries then
          TriesFrom(cfg, released + cfg.interval, released + t.inFlight + t.retryDelay, tries, k + 1, made + [released])
        else Trail(released + cfg.interval, released + t.inFlight, made + [released], t.reply)
  {
  }

  lemma {:induction false} TriesFromStart(cfg: Config, next: int, now: int, tries: nat -> Try, k: nat, made: seq<int>)
    requires k <= cfg.maxRetries
    ensures var t := Tries(cfg, next, now, tries, k);
      TriesFrom(cfg, next, now, tries, k, made) == t.(releases := made + t.releases)
    decreases cfg.maxRetries - k
  {
    var t := tries(k);
    if t.reply.Transient? && k < cfg.maxRetries {
      var released := Larger(now + t.idle, next) + t.oversleep;
      TriesFromStart(cfg, released + cfg.interval, released + t.inFlight + t.retryDelay, tries, k + 1, made + [released]);
      assert forall rest: seq<int> :: made + [released] + rest == made + ([released] + rest);
    }
  }

  datatype Client = Client(breaker: Breaker, next: int)

  datatype Served = Served(client: Client, later: int, releases: seq<int>, outcome: Outcome)

  /** `request_json` at time `now`. */
  function Request(cfg: Config, c: Client, now: int, tries: nat -> Try): Served {
    if !Admits(cfg, c.breaker, now) then Served(c, now, [], Refused)
    else
      var b, trail := Admitted(c.breaker), Tries(cfg, c.next, now, tries, 0);
      match trail.reply
      case Good => Served(Client(Closed(), trail.next), trail.later, trail.releases, Answered)
      case Transient =>
        Served(Client(Failed(cfg, b, trail.later), trail.next), trail.later, trail.releases, Unavailable)
      case Permanent =>
        Served(Client(Failed(cfg, b, trail.later), trail.next), trail.later, trail.releases, Rejected)
      // Nothing is recorded, neither a failure nor a success.
      case Escaped => Served(Client(b, trail.next), trail.later, trail.releases, Raised)
  }

  // ---- Runs of requests, one after the other ----

  /** A request made some time after the one before it returned. */
  datatype Call = Call(after: nat, tries: nat -> Try)

  datatype History = History(client: Client, now: int, releases: seq<int>, outcomes: seq<Outcome>)

  function Run(cfg: Config, c: Client, now: int, calls: seq<Call>): History
    decreases |calls|
  {
    if calls == [] then History(c, now, [], [])
    else
      var served := Request(cfg, c, now + calls[0].after, calls[0].tries);
      var rest := Run(cfg, served.client, served.later, calls[1..]);
      History(rest.client, rest.now, served.releases + rest.releases, [served.outcome] + rest.outcomes)
  }

  /** One of the breaker's three locked operations; concurrent callers interleave them freely. */
  datatype BreakerOp = Before(now: int) | Success | Failure(now: int)

  function Operate(cfg: Config, b: Breaker, op: BreakerOp): Breaker {
    match op
    case Before(now) => if Admits(cfg, b, now) then Admitted(b) else b
    case Success => Closed()
    case Failure(now) => Failed(cfg, b, now)
  }

  function OperateAll(cfg: Config, b: Breaker, ops: seq<BreakerOp>): Breaker
    decreases |ops|
  {
    if ops == [] then b else OperateAll(cfg, Operate(cfg, b, ops[0]), ops[1..])
  }

  /** The circuit is open exactly when the failures have reached the threshold, however callers interleave. */
  lemma {:induction false} OpenIffFailing(cfg: Config, b: Breaker, ops: seq<BreakerOp>)
    requires cfg.threshold > 0 && Sound(cfg, b)
    ensures Sound(cfg, OperateAll(cfg, b, ops))
    decreases |ops|
  {
    if ops != [] {
      OpenIffFailing(cfg, Operate(cfg, b, ops[0]), ops[1..]);
    }
  }

  /** A new breaker keeps that under all operations if and only if its threshold, which nothing checks, is positive. */
  lemma OpenIffFailingNeedsThreshold(cfg: Config)
    ensures cfg.threshold > 0 <==> forall ops :: Sound(cfg, OperateAll(cfg, Closed(), ops))
  {
    if cfg.threshold > 0 {
      forall ops ensures Sound(cfg, OperateAll(cfg, Closed(), ops)) {
        OpenIffFailing(cfg, Closed(), ops);
      }
    } else {
      assert !Sound(cfg, OperateAll(cfg, Closed(), []));
    }
  }

  /** n failures in a row, at the given times. */
  function Failures(n: nat, at: nat -> int): seq<BreakerOp> {
    if n == 0 then [] else Failures(n - 1, at) + [Failure(at(n - 1))]
  }

  lemma {:induction false} OperateLast(cfg: Config, b: Breaker, ops: seq<BreakerOp>, op: BreakerOp)
    ensures OperateAll(cfg, b, ops + [op]) == Operate(cfg, OperateAll(cfg, b, ops), op)
    decreases |ops|
  {
    if ops == [] {
      assert [op][1..] == [];
    } else {
      OperateLast(cfg, Operate(cfg, b, ops[0]), ops[1..], op);
      assert (ops + [op])[1..] == ops[1..] + [op];
    }
  }

  lemma {:induction false} FailuresCount(cfg: Config, n: nat, at: nat -> int)
    requires cfg.threshold > 0
    ensures OperateAll(cfg, Closed(), Failures(n, at)) == Breaker(n, if n >= cfg.threshold then Some(at(n - 1)) else None)
  {
    if n > 0 {
      FailuresCount(cfg, n - 1, at);
      OperateLast(cfg, Closed(), Failures(n - 1, at), Failure(at(n - 1)));
    }
  }

  /**
   * Failures count from the last success: fewer than the threshold refuse nothing, and from the threshold on requests
   * are refused until `reset` after the last failure, and then admitted with a clean count.
   */
  lemma BreakerMeaning(cfg: Config, b: Breaker, n: nat, at: nat -> int, now: int)
    requires cfg.threshold > 0
    ensures var after := OperateAll(cfg, b, [Success] + Failures(n, at));
      && (Admits(cfg, after, now) <==> n < cfg.threshold || now >= at(n - 1) + cfg.reset)
      && after.failures == n
      && Operate(cfg, after, Before(now))
        == if n >= cfg.threshold && now >= at(n - 1) + cfg.reset then Breaker(0, None) else after
  {
    assert ([Success] + Failures(n, at))[1..] == Failures(n, at);
    FailuresCount(cfg, n, at);
  }

  /** What a request does to the breaker: ask, and record once how it ended, unless an exception escaped. */
  lemma RequestOperates(cfg: Config, c: Client, now: int, tries: nat -> Try)
    ensures var s := Request(cfg, c, now, tries);
      s.client.breaker == OperateAll(cfg, c.breaker, [Before(now)] +
        match s.outcome
        case Answered => [Success]
        case Unavailable => [Failure(s.later)]
        case Rejected => [Failure(s.later)]
        case _ => [])
  {
    hide Tries;
    var s := Request(cfg, c, now, tries);
    var asked := Operate(cfg, c.breaker, Before(now));
    OperateFirst(cfg, c.breaker, Before(now), []);
    OperateFirst(cfg, c.breaker, Before(now), [Success]);
    OperateFirst(cfg, c.breaker, Before(now), [Failure(s.later)]);
    OperateFirst(cfg, asked, Success, []);
    OperateFirst(cfg, asked, Failure(s.later), []);
    assert [Success] + [] == [Success] && [Failure(s.later)] + [] == [Failure(s.later)];
  }

  lemma OperateFirst(cfg: Config, b: Breaker, op: BreakerOp, rest: seq<BreakerOp>)
    ensures OperateAll(cfg, b, [op] + rest) == OperateAll(cfg, Operate(cfg, b, op), rest)
  {
    assert ([op] + rest)[1..] == rest;
  }

  /**
   * The retry loop stops at the first reply that is not transient, or after `maxRetries` retries: it makes one
   * attempt more than the transient replies it goes past, each released when the wait after the one before is over
   * and the pacing allows it, and ends with the reply it stopped at.
   */
  lemma {:induction false} RetryMeaning(cfg: Config, next: int, now: int, tries: nat -> Try, k: nat, n: nat)
    requires k <= n <= cfg.maxRetries
    requires forall i: nat :: k <= i < n ==> tries(i).reply.Transient?
    requires n == cfg.maxRetries || !tries(n).reply.Transient?
    ensures var t := Tries(cfg, next, now, tries, k);
      && |t.releases| == n - k + 1 && t.reply == tries(n).reply
      && t.releases[0] == (if now + tries(k).idle >= next then now + tries(k).idle else next) + tries(k).oversleep
      && (k < n ==>
        var ready := t.releases[0] + tries(k).inFlight + tries(k).retryDelay + tries(k + 1).idle;
        t.releases[1] == Larger(ready, t.releases[0] + cfg.interval) + tries(k + 1).oversleep)
      && t.later == t.releases[n - k] + tries(n).inFlight
      && t.next == t.releases[n - k] + cfg.interval
    decreases n - k
  {
    if k < n {
      var t := tries(k);
      var released := Larger(now + t.idle, next) + t.oversleep;
      RetryMeaning(cfg, released + cfg.interval, released + t.inFlight + t.retryDelay, tries, k + 1, n);
    }
  }

  /** What a request returns for the reply its loop ends with. */
  lemma RequestMeaning(cfg: Config, c: Client, now: int, tries: nat -> Try, n: nat)
    requires n <= cfg.maxRetries && (forall i: nat :: i < n ==> tries(i).reply.Transient?)
    requires n == cfg.maxRetries || !tries(n).reply.Transient?
    ensures var s := Request(cfg, c, now, tries);
      && (!Admits(cfg, c.breaker, now) ==> s == Served(c, now, [], Refused))
      && (Admits(cfg, c.breaker, now) ==> |s.releases| == n + 1 && s.outcome == match tries(n).reply
        case Good => Answered
        case Transient => Unavailable
        case Permanent => Rejected
        case Escaped => Raised)
  {
    hide Tries;
    RetryMeaning(cfg, c.next, now, tries, 0, n);
  }

  /** The releases are at least an interval apart, none before the pacing mark, which the last one sets. */
  ghost predicate Spaced(interval: nat, next: int, releases: seq<int>, after: int) {
    && (forall i :: 0 <= i < |releases| ==> releases[i] >= next)
    && (forall i, j :: 0 <= i < j < |releases| ==> releases[i] + interval <= releases[j])
    && after == if releases == [] then next else releases[|releases| - 1] + interval
  }

  lemma SpacedOne(interval: nat, next: int, released: int)
    requires next <= released
    ensures Spaced(interval, next, [released], released + interval)
  {
  }

  lemma SpacedAppend(interval: nat, next: int, xs: seq<int>, middle: int, ys: seq<int>, after: int)
    requires Spaced(interval, next, xs, middle) && Spaced(interval, middle, ys, after)
    ensures Spaced(interval, next, xs + ys, after)
  {
    forall i | 0 <= i < |ys| ensures ys[i] >= next {
      assert xs != [] ==> xs[|xs| - 1] >= next;
    }
    forall i, j | 0 <= i < |xs| && 0 <= j < |ys| ensures xs[i] + interval <= ys[j] {
      assert i < |xs| - 1 ==> xs[i] + interval <= xs[|xs| - 1];
    }
  }

  lemma {:induction false} TriesSpaced(cfg: Config, next: int, now: int, tries: nat -> Try, k: nat)
    requires k <= cfg.maxRetries
    ensures var t := Tries(cfg, next, now, tries, k);
      && Spaced(cfg.interval, next, t.releases, t.next)
      && 0 < |t.releases| <= cfg.maxRetries + 1 - k
      && now <= t.later
    decreases cfg.maxRetries - k
  {
    hide Tries, Spaced;
    var t := tries(k);
    var released := Larger(now + t.idle, next) + t.oversleep;
    TriesUnfold(cfg, next, now, tries, k);
    SpacedOne(cfg.interval, next, released);
    if t.reply.Transient? && k < cfg.maxRetries {
      var mark, retry := released + cfg.interval, released + t.inFlight + t.retryDelay;
      TriesSpaced(cfg, mark, retry, tries, k + 1);
      var rest := Tries(cfg, mark, retry, tries, k + 1);
      SpacedAppend(cfg.interval, next, [released], mark, rest.releases, rest.next);
    }
  }

  /** Consecutive transport attempts of any run are released at least the minimum interval apart. */
  lemma {:induction false} AttemptsAreSpaced(cfg: Config, c: Client, now: int, calls: seq<Call>)
    ensures var h := Run(cfg, c, now, calls); Spaced(cfg.interval, c.next, h.releases, h.client.next)
    decreases |calls|
  {
    if calls != [] {
      var served := Request(cfg, c, now + calls[0].after, calls[0].tries);
      TriesSpaced(cfg, c.next, now + calls[0].after, calls[0].tries, 0);
      var rest := Run(cfg, served.client, served.later, calls[1..]);
      AttemptsAreSpaced(cfg, served.client, served.later, calls[1..]);
      SpacedAppend(cfg.interval, c.next, served.releases, served.client.next, rest.releases, rest.client.next);
    }
  }

  // ---- How often a failing provider is called ----

  ghost predicate NeverAnswered(outcomes: seq<Outcome>) {
    forall i :: 0 <= i < |outcomes| ==> outcomes[i] != Answered
  }

  /** The requests that ended in an escaped exception. */
  function Escapes(outcomes: seq<Outcome>): nat {
    if outcomes == [] then 0 else (if outcomes[0] == Raised then 1 else 0) + Escapes(outcomes[1..])
  }

  function Used(b: Breaker): nat {
    if b.openedAt.Some? then 0 else b.failures
  }

  /** When the next request can be admitted. */
  function OpenFrom(cfg: Config, b: Breaker, now: int): int {
    if b.openedAt.Some? then Larger(now, b.openedAt.value + cfg.reset) else now
  }

  function CallsLeft(cfg: Config, b: Breaker, now: int, end: int): int
    requires cfg.threshold > 0 && cfg.reset > 0
  {
    Allowance(cfg.threshold, cfg.reset, Used(b), OpenFrom(cfg, b, now), end)
  }

  /** Whether a request is recorded as a failure. */
  function Recorded(outcome: Outcome): nat {
    if outcome in {Unavailable, Rejected} then 1 else 0
  }

  /** One request of a failing provider uses up one recorded call, or escapes, or is refused. */
  lemma RequestUsesOne(cfg: Config, c: Client, now: int, tries: nat -> Try, end: int)
    requires cfg.threshold > 0 && cfg.reset > 0 && Sound(cfg, c.breaker)
    requires var s := Request(cfg, c, now, tries); s.outcome != Answered && s.later <= end
    ensures var s := Request(cfg, c, now, tries);
      && now <= s.later
      && Recorded(s.outcome) + CallsLeft(cfg, s.client.breaker, s.later, end) <= CallsLeft(cfg, c.breaker, now, end)
      && |s.releases| <= (cfg.maxRetries + 1) * (Recorded(s.outcome) + Escapes([s.outcome]))
  {
    hide Allowance, Tries;
    var s := Request(cfg, c, now, tries);
    TriesSpaced(cfg, c.next, now, tries, 0);
    if s.outcome != Refused {
      var used := Used(Admitted(c.breaker));
      assert OpenFrom(cfg, c.breaker, now) == now && used == Used(c.breaker);
      if s.outcome == Raised {
        LaterIsLess(cfg.threshold, cfg.reset, used, now, s.later, end);
      } else if used + 1 >= cfg.threshold {
        UseLast(cfg.threshold, cfg.reset, now, s.later, end);
      } else {
        UseOne(cfg.threshold, cfg.reset, used, now, end);
        LaterIsLess(cfg.threshold, cfg.reset, used + 1, now, s.later, end);
      }
    }
  }

  lemma {:induction false} AttemptsLeft(cfg: Config, c: Client, now: int, calls: seq<Call>)
    requires cfg.threshold > 0 && cfg.reset > 0 && Sound(cfg, c.breaker)
    requires NeverAnswered(Run(cfg, c, now, calls).outcomes)
    ensures var h := Run(cfg, c, now, calls);
      && now <= h.now
      && 0 <= CallsLeft(cfg, c.breaker, now, h.now)
      && |h.releases| <= (cfg.maxRetries + 1) * (CallsLeft(cfg, c.breaker, now, h.now) + Escapes(h.outcomes))
    decreases |calls|
  {
    hide Allowance, Request, OpenFrom, Used, Escapes;
    var h, n := Run(cfg, c, now, calls), cfg.maxRetries + 1;
    if calls == [] {
      NoneLeft(cfg, c.breaker, now);
    } else {
      var start := now + calls[0].after;
      var s := Request(cfg, c, start, calls[0].tries);
      var rest := Run(cfg, s.client, s.later, calls[1..]);
      RestNeverAnswered(s.outcome, rest.outcomes, h.outcomes);
      RequestSound(cfg, c, start, calls[0].tries);
      AttemptsLeft(cfg, s.client, s.later, calls[1..]);
      RequestUsesOne(cfg, c, start, calls[0].tries, h.now);
      CallsLeftLater(cfg, c.breaker, now, start, h.now);
      EscapesSplit(s.outcome, rest.outcomes);
      TwoShares(n, Recorded(s.outcome) + Escapes([s.outcome]),
        CallsLeft(cfg, s.client.breaker, s.later, h.now) + Escapes(rest.outcomes),
        CallsLeft(cfg, c.breaker, now, h.now) + Escapes(h.outcomes));
    }
  }

  lemma EscapesSplit(first: Outcome, rest: seq<Outcome>)
    ensures Escapes([first] + rest) == Escapes([first]) + Escapes(rest)
  {
    assert [first][1..] == [];
  }

  lemma RestNeverAnswered(first: Outcome, rest: seq<Outcome>, all: seq<Outcome>)
    requires NeverAnswered(all) && all == [first] + rest
    ensures first != Answered && NeverAnswered(rest)
  {
    assert all[0] == first;
    assert forall i :: 0 <= i < |rest| ==> rest[i] == all[i + 1];
  }

  lemma TwoShares(n: nat, one: int, left: int, total: int)
    requires one + left <= total
    ensures n * one + n * left <= n * total
  {
    TimesMono(n, one + left, total);
    assert n * (one + left) == n * one + n * left;
  }

  lemma NoneLeft(cfg: Config, b: Breaker, now: int)
    requires cfg.reset > 0 && cfg.threshold > 0 && Sound(cfg, b)
    ensures 0 <= CallsLeft(cfg, b, now, now)
    ensures 0 <= (cfg.maxRetries + 1) * (CallsLeft(cfg, b, now, now) + Escapes([]))
  {
    hide Allowance;
    var from := OpenFrom(cfg, b, now);
    LaterIsLess(cfg.threshold, cfg.reset, Used(b), from, from, now);
    TimesMono(cfg.maxRetries + 1, 0, CallsLeft(cfg, b, now, now));
  }

  lemma RequestSound(cfg: Config, c: Client, now: int, tries: nat -> Try)
    requires cfg.threshold > 0 && Sound(cfg, c.breaker)
    ensures Sound(cfg, Request(cfg, c, now, tries).client.breaker)
  {
  }

  lemma CallsLeftLater(cfg: Config, b: Breaker, now: int, start: int, end: int)
    requires cfg.reset > 0 && cfg.threshold > 0 && Sound(cfg, b) && now <= start
    ensures 0 <= CallsLeft(cfg, b, start, end) <= CallsLeft(cfg, b, now, end)
  {
    hide Allowance;
    LaterIsLess(cfg.threshold, cfg.reset, Used(b), OpenFrom(cfg, b, now), OpenFrom(cfg, b, start), end);
  }

  /**
   * Sequential callers of a provider that never answers make at most
   * (threshold * (T / reset + 1) + escaped requests) * (max_retries + 1) transport attempts in T.
   */
  lemma AttemptBound(cfg: Config, c: Client, now: int, calls: seq<Call>)
    requires cfg.threshold > 0 && cfg.reset > 0 && Sound(cfg, c.breaker)
    requires NeverAnswered(Run(cfg, c, now, calls).outcomes)
    ensures var h := Run(cfg, c, now, calls);
      |h.releases| <= (cfg.threshold * ((h.now - now) / cfg.reset + 1) + Escapes(h.outcomes)) * (cfg.maxRetries + 1)
  {
    hide Run, CallsLeft;
    var h := Run(cfg, c, now, calls);
    AttemptsLeft(cfg, c, now, calls);
    BoundFromNow(cfg, c.breaker, now, h.now);
    var periods := cfg.threshold * ((h.now - now) / cfg.reset + 1);
    TimesMono(cfg.maxRetries + 1, CallsLeft(cfg, c.breaker, now, h.now) + Escapes(h.outcomes),
      periods + Escapes(h.outcomes));
    Commute(cfg.maxRetries + 1, periods + Escapes(h.outcomes));
  }

  lemma Commute(a: int, b: int)
    ensures a * b == b * a
  {
  }

  lemma BoundFromNow(cfg: Config, b: Breaker, now: int, end: int)
    requires cfg.reset > 0 && cfg.threshold > 0 && Sound(cfg, b) && now <= end
    ensures CallsLeft(cfg, b, now, end) <= cfg.threshold * ((end - now) / cfg.reset + 1)
  {
    LaterIsLess(cfg.threshold, cfg.reset, Used(b), now, OpenFrom(cfg, b, now), end);
  }

  // ---- When the breaker alone bounds the attempts ----

  /** Attempts that `threshold` recorded requests can make. */
  function Batch(cfg: Config): int {
    cfg.threshold * (cfg.maxRetries + 1)
  }

  /** What the breaker is for: threshold * (max_retries + 1) attempts in each reset period. */
  ghost predicate Bounded(cfg: Config, now: int, h: History)
    requires cfg.reset > 0
  {
    |h.releases| <= Batch(cfg) * ((h.now - now) / cfg.reset + 1)
  }

  /** The provider's replies are all of the given kinds. */
  ghost predicate Within(calls: seq<Call>, kinds: set<Reply>) {
    forall i, k: nat :: 0 <= i < |calls| ==> calls[i].tries(k).reply in kinds
  }

  lemma {:induction false} LastReply(cfg: Config, next: int, now: int, tries: nat -> Try, k: nat)
    requires k <= cfg.maxRetries
    ensures exists m: nat :: Tries(cfg, next, now, tries, k).reply == tries(m).reply
    decreases cfg.maxRetries - k
  {
    var t := tries(k);
    if t.reply.Transient? && k < cfg.maxRetries {
      var released := Larger(now + t.idle, next) + t.oversleep;
      LastReply(cfg, released + cfg.interval, released + t.inFlight + t.retryDelay, tries, k + 1);
    }
  }

  lemma {:induction false} NothingEscapes(cfg: Config, c: Client, now: int, calls: seq<Call>, kinds: set<Reply>)
    requires Within(calls, kinds) && Escaped !in kinds
    ensures Escapes(Run(cfg, c, now, calls).outcomes) == 0
    decreases |calls|
  {
    hide Tries;
    if calls != [] {
      var s := Request(cfg, c, now + calls[0].after, calls[0].tries);
      LastReply(cfg, c.next, now + calls[0].after, calls[0].tries, 0);
      assert forall i :: 0 <= i < |calls| - 1 ==> calls[1..][i] == calls[i + 1];
      NothingEscapes(cfg, s.client, s.later, calls[1..], kinds);
    }
  }

  lemma {:induction false} TriesWithin(cfg: Config, next: int, now: int, tries: nat -> Try, k: nat)
    requires k <= cfg.maxRetries
    ensures var t := Tries(cfg, next, now, tries, k);
      now <= t.later && forall i :: 0 <= i < |t.releases| ==> now <= t.releases[i] <= t.later
    decreases cfg.maxRetries - k
  {
    var t := tries(k);
    if t.reply.Transient? && k < cfg.maxRetries {
      var released := Larger(now + t.idle, next) + t.oversleep;
      TriesWithin(cfg, released + cfg.interval, released + t.inFlight + t.retryDelay, tries, k + 1);
    }
  }

  /** Every release of a run is made during it. */
  lemma {:induction false} ReleasesWithin(cfg: Config, c: Client, now: int, calls: seq<Call>)
    ensures var h := Run(cfg, c, now, calls);
      now <= h.now && forall i :: 0 <= i < |h.releases| ==> now <= h.releases[i] <= h.now
    decreases |calls|
  {
    hide Tries;
    if calls != [] {
      var s := Request(cfg, c, now + calls[0].after, calls[0].tries);
      TriesWithin(cfg, c.next, now + calls[0].after, calls[0].tries, 0);
      ReleasesWithin(cfg, s.client, s.later, calls[1..]);
    }
  }

  lemma {:induction false} SpacedSpan(interval: nat, next: int, releases: seq<int>, after: int, k: nat)
    requires Spaced(interval, next, releases, after) && k < |releases|
    ensures releases[0] + k * interval <= releases[k]
  {
    if k > 0 {
      SpacedSpan(interval, next, releases, after, k - 1);
      assert releases[k - 1] + interval <= releases[k];
      assert k * interval == (k - 1) * interval + interval;
    }
  }

  /** Attempts an interval apart stay within the bound by themselves when a batch takes a whole reset period. */
  lemma SpacedIsBounded(cfg: Config, n: nat, span: nat)
    requires cfg.threshold > 0 && cfg.reset > 0 && Batch(cfg) * cfg.interval >= cfg.reset
    requires n > 0 ==> (n - 1) * cfg.interval <= span
    ensures Batch(cfg) > 0
    ensures n <= Batch(cfg) * (span / cfg.reset + 1)
  {
    TimesMono(cfg.threshold, 1, cfg.maxRetries + 1);
    var batch := Batch(cfg);
    if n > 0 {
      var q := (n - 1) / batch;
      Quotient(n - 1, batch);
      TimesMono(cfg.interval, batch * q, n - 1);
      TimesMono(q, cfg.reset, batch * cfg.interval);
      assert q * (batch * cfg.interval) == cfg.interval * (batch * q);
      assert q * cfg.reset <= span;
      FitsPeriods(q, cfg.reset, span);
      TimesMono(batch, q + 1, span / cfg.reset + 1);
    } else {
      DivMono(0, span, cfg.reset);
      TimesMono(batch, 0, span / cfg.reset + 1);
    }
  }

  lemma FitsPeriods(q: nat, period: nat, span: nat)
    requires period > 0 && q * period <= span
    ensures q <= span / period
  {
    Quotient(span, period);
    if span / period < q {
      TimesMono(period, span / period + 1, q);
    }
  }

  /** n requests in a row whose first attempt raises an escaping exception at once. */
  function EscapingCalls(n: nat): seq<Call> {
    if n == 0 then [] else [Call(0, (k: nat) => Try(0, 0, 0, Escaped, 0))] + EscapingCalls(n - 1)
  }

  /** The breaker never hears of them: one attempt each, an interval apart, for any n. */
  lemma {:induction false} EscapingRun(cfg: Config, c: Client, now: int, n: nat)
    requires c.breaker.openedAt.None?
    ensures Within(EscapingCalls(n), {Escaped})
    ensures var h := Run(cfg, c, now, EscapingCalls(n));
      && |h.releases| == n && h.client.breaker == c.breaker && NeverAnswered(h.outcomes)
      && (c.next <= now && n > 0 ==> h.now == now + (n - 1) * cfg.interval)
      && (c.next <= now && cfg.interval == 0 ==> forall i :: 0 <= i < n ==> h.releases[i] == now)
      && (c.next == now + cfg.interval ==> h.now == now + n * cfg.interval)
    decreases n
  {
    if n > 0 {
      var s := Request(cfg, c, now, EscapingCalls(n)[0].tries);
      assert EscapingCalls(n)[1..] == EscapingCalls(n - 1);
      EscapingRun(cfg, s.client, s.later, n - 1);
      assert n * cfg.interval == (n - 1) * cfg.interval + cfg.interval;
    }
  }

  /**
   * The breaker's bound holds over all runs of unanswered requests exactly when no reply can escape, or the pacing
   * alone takes a reset period for each batch. With the default interval of zero only the first remains.
   */
  lemma BreakerBoundIff(cfg: Config, kinds: set<Reply>)
    requires cfg.threshold > 0 && cfg.reset > 0
    ensures (forall c: Client, now, calls ::
        Sound(cfg, c.breaker) && Within(calls, kinds) && NeverAnswered(Run(cfg, c, now, calls).outcomes) ==>
          Bounded(cfg, now, Run(cfg, c, now, calls)))
      <==> Escaped !in kinds || Batch(cfg) * cfg.interval >= cfg.reset
  {
    if Escaped !in kinds || Batch(cfg) * cfg.interval >= cfg.reset {
      forall c: Client, now, calls |
        Sound(cfg, c.breaker) && Within(calls, kinds) && NeverAnswered(Run(cfg, c, now, calls).outcomes)
        ensures Bounded(cfg, now, Run(cfg, c, now, calls))
      {
        BoundedRun(cfg, kinds, c, now, calls);
      }
    } else {
      UnboundedRun(cfg, kinds);
    }
  }

  lemma BoundedRun(cfg: Config, kinds: set<Reply>, c: Client, now: int, calls: seq<Call>)
    requires cfg.threshold > 0 && cfg.reset > 0
    requires Sound(cfg, c.breaker) && Within(calls, kinds) && NeverAnswered(Run(cfg, c, now, calls).outcomes)
    requires Escaped !in kinds || Batch(cfg) * cfg.interval >= cfg.reset
    ensures Bounded(cfg, now, Run(cfg, c, now, calls))
  {
    hide Run;
    var h := Run(cfg, c, now, calls);
    ReleasesWithin(cfg, c, now, calls);
    if Escaped !in kinds {
      AttemptBound(cfg, c, now, calls);
      NothingEscapes(cfg, c, now, calls, kinds);
      Regroup(cfg.threshold, (h.now - now) / cfg.reset + 1, cfg.maxRetries + 1);
    } else {
      AttemptsAreSpaced(cfg, c, now, calls);
      if h.releases != [] {
        SpacedSpan(cfg.interval, c.next, h.releases, h.client.next, |h.releases| - 1);
      }
      SpacedIsBounded(cfg, |h.releases|, h.now - now);
    }
  }

  lemma Regroup(a: int, b: int, c: int)
    ensures a * b * c == a * c * b
  {
  }

  lemma UnboundedRun(cfg: Config, kinds: set<Reply>)
    requires cfg.threshold > 0 && cfg.reset > 0
    requires Escaped in kinds && Batch(cfg) * cfg.interval < cfg.reset
    ensures exists c: Client, now, calls ::
      && Sound(cfg, c.breaker) && Within(calls, kinds) && NeverAnswered(Run(cfg, c, now, calls).outcomes)
      && !Bounded(cfg, now, Run(cfg, c, now, calls))
  {
    TimesMono(cfg.threshold, 1, cfg.maxRetries + 1);
    var c, n := Client(Closed(), 0), Batch(cfg) + 1;
    EscapingRun(cfg, c, 0, n);
    var h := Run(cfg, c, 0, EscapingCalls(n));
    TimesMono(cfg.interval, 0, n - 1);
    QuotientUnique(h.now, cfg.reset, 0);
    assert !Bounded(cfg, 0, h);
    assert Sound(cfg, c.breaker) && Within(EscapingCalls(n), kinds);
  }

  // ---- The client ----

  class ResilientHttpClient {
    const cfg: Config
    var failures: nat
    var openedAt: Option<int>
    var nextRequestAt: int

    function State(): Client
      reads this
    {
      Client(Breaker(failures, openedAt), nextRequestAt)
    }

    ghost predicate Valid()
      reads this
    {
      cfg.threshold > 0 ==> Sound(cfg, State().breaker)
    }

    constructor (cfg: Config)
      ensures Valid() && this.cfg == cfg && State() == Client(Closed(), 0)
    {
      this.cfg, failures, openedAt, nextRequestAt := cfg, 0, None, 0;
    }

    method BeforeRequest(now: int) returns (admitted: bool)
      modifies this`failures, this`openedAt
      ensures admitted == Admits(cfg, old(State().breaker), now)
      ensures State().breaker == if admitted then Admitted(old(State().breaker)) else old(State().breaker)
    {
      if openedAt.None? {
        return true;
      }
      if now - openedAt.value >= cfg.reset {
        openedAt, failures := None, 0;
        return true;
      }
      return false;
    }

    method RecordSuccess()
      modifies this`failures, this`openedAt
      ensures State().breaker == Closed()
    {
      failures, openedAt := 0, None;
    }

    method RecordFailure(now: int)
      modifies this`failures, this`openedAt
      ensures State().breaker == Failed(cfg, old(State().breaker), now)
    {
      failures := failures + 1;
      if failures >= cfg.threshold {
        openedAt := Some(now);
      }
    }

    /** `_pace`: wait for the pacing mark, then set the next one; the result is the release time. */
    method Pace(now: int, oversleep: nat) returns (released: int)
      modifies this`nextRequestAt
      ensures released == Larger(now, old(nextRequestAt)) + oversleep
      ensures nextRequestAt == released + cfg.interval
    {
      var delay := nextRequestAt - now;
      released := (if delay > 0 then now + delay else now) + oversleep;
      nextRequestAt := released + cfg.interval;
    }

    /** The retry loop: up to `maxRetries` further attempts while the provider fails transiently. */
    method TryRequest(now: int, tries: nat -> Try) returns (reply: Reply, later: int, releases: seq<int>)
      modifies this`nextRequestAt
      ensures Trail(nextRequestAt, later, releases, reply) == Tries(cfg, old(nextRequestAt), now, tries, 0)
    {
      hide TriesFrom, Larger;
      TriesFromStart(cfg, nextRequestAt, now, tries, 0, []);
      ghost var whole := TriesFrom(cfg, nextRequestAt, now, tries, 0, []);
      later, releases := now, [];
      var attempt := 0;
      while true
        invariant 0 <= attempt <= cfg.maxRetries
        invariant whole == TriesFrom(cfg, nextRequestAt, later, tries, attempt, releases)
        decreases cfg.maxRetries - attempt
      {
        var t := tries(attempt);
        TriesFromStep(cfg, nextRequestAt, later, tries, attempt, releases);
        var released := Pace(later + t.idle, t.oversleep);
        later, releases := released + t.inFlight, releases + [released];
        if !t.reply.Transient? || attempt == cfg.maxRetries {
          return t.reply, later, releases;
        }
        later := later + t.retryDelay;
        attempt := attempt + 1;
      }
    }

    method RequestJson(now: int, tries: nat -> Try) returns (outcome: Outcome, later: int, releases: seq<int>)
      requires Valid()
      modifies this
      ensures Valid()
      ensures Served(State(), later, releases, outcome) == Request(cfg, old(State()), now, tries)
    {
      var admitted := BeforeRequest(now);
      if !admitted {
        return Refused, now, [];
      }
      var reply;
      reply, later, releases := TryRequest(now, tries);
      match reply {
        case Good =>
          RecordSuccess();
          outcome := Answered;
        case Transient =>
          RecordFailure(later);
          outcome := Unavailable;
        case Permanent =>
          RecordFailure(later);
          outcome := Rejected;
        case Escaped =>
          outcome := Raised;
      }
    }
  }
}
