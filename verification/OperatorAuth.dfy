/** The operator credential's failure counter and timed block (app/services/operator_auth.py). */
module OperatorAuth {
  import opened Outcomes
  import opened RateLimit

  const MAX_FAILURES: nat := 5

  /** Times are in microseconds. */
  const BLOCK: nat := 60_000_000

  const BOOTSTRAP_LIFETIME: nat := 30 * 24 * 3_600_000_000

  datatype Credential = Credential(
    failedAttempts: nat, blockedUntil: Option<int>, revoked: bool, expiresAt: Option<int>, permissions: set<string>)

  /** A call to `authenticate`; `matches` is whether the token hashes to the stored hash. */
  datatype Attempt = Attempt(emptyToken: bool, permission: string, matches: bool, now: int)

  /** `Denied` was evaluated and counted; the other refusals were not. */
  datatype Verdict = Granted | Denied | RateLimited | EmptyToken | NoCredential

  predicate Blocked(c: Credential, now: int) {
    c.blockedUntil.Some? && c.blockedUntil.value > now
  }

  /** The token is good for this permission now. */
  predicate Passes(c: Credential, a: Attempt) {
    && !c.revoked
    && (c.expiresAt.None? || c.expiresAt.value > a.now)
    && a.permission in c.permissions
    && a.matches
  }

  function Verify(c: Credential, a: Attempt): Verdict {
    if a.emptyToken then EmptyToken
    else if Blocked(c, a.now) then RateLimited
    else if Passes(c, a) then Granted
    else Denied
  }

  function After(c: Credential, a: Attempt): Credential {
    match Verify(c, a)
    case Granted => c.(failedAttempts := 0, blockedUntil := None)
    case Denied =>
      if c.failedAttempts + 1 >= MAX_FAILURES then c.(failedAttempts := 0, blockedUntil := Some(a.now + BLOCK))
      else c.(failedAttempts := c.failedAttempts + 1)
    case _ => c
  }

  // ---- What an attempt gets ----

  /** The whole answer to an attempt on an existing credential, and what it leaves. */
  ghost predicate Answers(c: Credential, a: Attempt, verdict: Verdict, after: Credential) {
    var blocked := c.blockedUntil.Some? && a.now < c.blockedUntil.value;
    var alive := !c.revoked && (c.expiresAt.Some? ==> a.now < c.expiresAt.value);
    var good := a.matches && a.permission in c.permissions && alive;
    && (a.emptyToken ==> verdict == EmptyToken && after == c)
    && (!a.emptyToken && blocked ==> verdict == RateLimited && after == c)
    && (!a.emptyToken && !blocked && good ==>
      verdict == Granted && after == c.(failedAttempts := 0, blockedUntil := None))
    && (!a.emptyToken && !blocked && !good ==> verdict == Denied)
    && (!a.emptyToken && !blocked && !good && c.failedAttempts < 4 ==>
      after == c.(failedAttempts := c.failedAttempts + 1))
    && (!a.emptyToken && !blocked && !good && c.failedAttempts >= 4 ==>
      after == c.(failedAttempts := 0, blockedUntil := Some(a.now + 60 * 1_000_000)))
  }

  lemma AttemptIsAnswered(c: Credential, a: Attempt)
    ensures Answers(c, a, Verify(c, a), After(c, a))
  {
  }

  /** A revoked or expired credential, a missing permission or a wrong token is never granted. */
  lemma GrantNeeds(c: Credential, a: Attempt)
    requires Verify(c, a) == Granted
    ensures !c.revoked && (c.expiresAt.Some? ==> a.now < c.expiresAt.value) && a.permission in c.permissions && a.matches
    ensures c.blockedUntil.Some? ==> c.blockedUntil.value <= a.now
  {
  }

  // ---- Runs ----

  function Run(c: Credential, attempts: seq<Attempt>): Credential
    decreases |attempts|
  {
    if attempts == [] then c else Run(After(c, attempts[0]), attempts[1..])
  }

  /** How many attempts had their token looked at. */
  function Evaluated(c: Credential, attempts: seq<Attempt>): nat
    decreases |attempts|
  {
    if attempts == [] then 0
    else
      (if Verify(c, attempts[0]) in {Granted, Denied} then 1 else 0) + Evaluated(After(c, attempts[0]), attempts[1..])
  }

  predicate NeverGranted(c: Credential, attempts: seq<Attempt>)
    decreases |attempts|
  {
    attempts == [] || (Verify(c, attempts[0]) != Granted && NeverGranted(After(c, attempts[0]), attempts[1..]))
  }

  /** The clock does not run backwards. */
  predicate InOrder(start: int, attempts: seq<Attempt>, end: int)
    decreases |attempts|
  {
    if attempts == [] then start <= end
    else start <= attempts[0].now && InOrder(attempts[0].now, attempts[1..], end)
  }

  /** In every run the stored failure count stays below the limit. */
  lemma {:induction false} FailuresStayBelow(c: Credential, attempts: seq<Attempt>)
    requires c.failedAttempts < MAX_FAILURES
    ensures Run(c, attempts).failedAttempts < MAX_FAILURES
    decreases |attempts|
  {
    if attempts != [] {
      FailuresStayBelow(After(c, attempts[0]), attempts[1..]);
    }
  }

  /** When an evaluation is next possible. */
  function OpenFrom(c: Credential, now: int): int {
    if Blocked(c, now) then c.blockedUntil.value else now
  }

  lemma {:induction false} InOrderEnds(start: int, attempts: seq<Attempt>, end: int)
    requires InOrder(start, attempts, end)
    ensures start <= end
    decreases |attempts|
  {
    if attempts != [] {
      InOrderEnds(attempts[0].now, attempts[1..], end);
    }
  }

  lemma {:induction false} EvaluatedWithin(c: Credential, attempts: seq<Attempt>, start: int, end: int)
    requires c.failedAttempts < MAX_FAILURES && InOrder(start, attempts, end) && NeverGranted(c, attempts)
    ensures Evaluated(c, attempts) <= Allowance(MAX_FAILURES, BLOCK, c.failedAttempts, OpenFrom(c, start), end)
    decreases |attempts|
  {
    hide Allowance;
    var used, from := c.failedAttempts, OpenFrom(c, start);
    LaterIsLess(MAX_FAILURES, BLOCK, used, from, from, end);
    if attempts != [] {
      var a := attempts[0];
      var next := After(c, a);
      EvaluatedWithin(next, attempts[1..], a.now, end);
      InOrderEnds(a.now, attempts[1..], end);
      LaterIsLess(MAX_FAILURES, BLOCK, used, from, OpenFrom(c, a.now), end);
      if Verify(c, a) == Denied {
        if used + 1 >= MAX_FAILURES {
          UseLast(MAX_FAILURES, BLOCK, a.now, a.now, end);
        } else {
          UseOne(MAX_FAILURES, BLOCK, used, a.now, end);
        }
      }
    }
  }

  /**
   * Without a success, at most 5 * (T / 60s + 1) attempts in T are evaluated; the rest are refused by the block
   * whatever their token.
   */
  lemma LockoutBound(c: Credential, attempts: seq<Attempt>, start: int, end: int)
    requires c.failedAttempts < MAX_FAILURES && InOrder(start, attempts, end) && NeverGranted(c, attempts)
    ensures Evaluated(c, attempts) <= MAX_FAILURES * ((end - start) / BLOCK + 1)
  {
    EvaluatedWithin(c, attempts, start, end);
    InOrderEnds(start, attempts, end);
    LaterIsLess(MAX_FAILURES, BLOCK, c.failedAttempts, start, OpenFrom(c, start), end);
  }

  /** Five wrong tokens at once, at the start of every minute. */
  function Guesses(now: int, minutes: nat): seq<Attempt>
    decreases minutes
  {
    var a := Attempt(false, "execution:pause", false, now);
    [a, a, a, a, a] + if minutes == 0 then [] else Guesses(now + BLOCK, minutes - 1)
  }

  /** The bound is attained, for every number of minutes. */
  lemma {:induction false} BoundIsTight(c: Credential, now: int, minutes: nat)
    requires c.failedAttempts == 0 && !Blocked(c, now)
    ensures InOrder(now, Guesses(now, minutes), now + minutes * BLOCK)
    ensures NeverGranted(c, Guesses(now, minutes))
    ensures Evaluated(c, Guesses(now, minutes)) == MAX_FAILURES * (minutes + 1)
    decreases minutes
  {
    var a := Attempt(false, "execution:pause", false, now);
    var rest := if minutes == 0 then [] else Guesses(now + BLOCK, minutes - 1);
    var after := c.(failedAttempts := 0, blockedUntil := Some(now + BLOCK));
    if minutes > 0 {
      BoundIsTight(after, now + BLOCK, minutes - 1);
    }
    FiveGuesses(c, a, rest, now + minutes * BLOCK);
  }

  lemma FiveGuesses(c: Credential, a: Attempt, rest: seq<Attempt>, end: int)
    requires c.failedAttempts == 0 && !Blocked(c, a.now) && !a.emptyToken && !a.matches
    requires var after := c.(failedAttempts := 0, blockedUntil := Some(a.now + BLOCK));
      && NeverGranted(after, rest)
      && InOrder(a.now, rest, end)
    ensures var after := c.(failedAttempts := 0, blockedUntil := Some(a.now + BLOCK));
      && NeverGranted(c, [a, a, a, a, a] + rest)
      && InOrder(a.now, [a, a, a, a, a] + rest, end)
      && Evaluated(c, [a, a, a, a, a] + rest) == MAX_FAILURES + Evaluated(after, rest)
  {
    var after := c.(failedAttempts := 0, blockedUntil := Some(a.now + BLOCK));
    var c1, c2, c3, c4 := c.(failedAttempts := 1), c.(failedAttempts := 2), c.(failedAttempts := 3), c.(failedAttempts := 4);
    Guess(c4, a, rest, end);
    Guess(c3, a, [a] + rest, end);
    Guess(c2, a, [a, a] + rest, end);
    Guess(c1, a, [a, a, a] + rest, end);
    Guess(c, a, [a, a, a, a] + rest, end);
    assert [a] + ([a] + rest) == [a, a] + rest;
    assert [a] + ([a, a] + rest) == [a, a, a] + rest;
    assert [a] + ([a, a, a] + rest) == [a, a, a, a] + rest;
    assert [a] + ([a, a, a, a] + rest) == [a, a, a, a, a] + rest;
  }

  lemma Guess(c: Credential, a: Attempt, rest: seq<Attempt>, end: int)
    requires !Blocked(c, a.now) && !a.emptyToken && !a.matches
    ensures NeverGranted(c, [a] + rest) == NeverGranted(After(c, a), rest)
    ensures InOrder(a.now, [a] + rest, end) == InOrder(a.now, rest, end)
    ensures Evaluated(c, [a] + rest) == 1 + Evaluated(After(c, a), rest)
  {
  }

  // ---- The service over its stored credential ----

  class Service {
    var credential: Option<Credential>
    const bootstrap: bool

    ghost predicate Valid()
      reads this
    {
      credential.Some? ==> credential.value.failedAttempts < MAX_FAILURES
    }

    constructor (bootstrap: bool)
      ensures Valid() && credential.None? && this.bootstrap == bootstrap
    {
      this.bootstrap, credential := bootstrap, None;
    }

    /** `ensure_bootstrap`: create the credential once, when a bootstrap token is configured. */
    method EnsureBootstrap(now: int)
      requires Valid()
      modifies this
      ensures Valid()
      ensures credential == if old(credential).Some? || !bootstrap then old(credential) else Some(Bootstrapped(now))
    {
      if !bootstrap {
        return;
      }
      if credential.None? {
        credential := Some(Bootstrapped(now));
      }
    }

    method Authenticate(a: Attempt) returns (verdict: Verdict)
      requires Valid()
      modifies this
      ensures Valid()
      ensures var existing := if old(credential).Some? || a.emptyToken || !bootstrap then old(credential)
        else Some(Bootstrapped(a.now));
        if existing.None? then credential.None? && verdict == (if a.emptyToken then EmptyToken else NoCredential)
        else verdict == Verify(existing.value, a) && credential == Some(After(existing.value, a))
      ensures old(credential).Some? ==> credential.Some? && Answers(old(credential).value, a, verdict, credential.value)
    {
      if credential.Some? {
        AttemptIsAnswered(credential.value, a);
      }
      hide Answers;
      if a.emptyToken {
        return EmptyToken;
      }
      if credential.None? {
        EnsureBootstrap(a.now);
      }
      if credential.None? {
        return NoCredential;
      }
      var c := credential.value;
      if c.blockedUntil.Some? && c.blockedUntil.value > a.now {
        return RateLimited;
      }
      var valid := !c.revoked && (c.expiresAt.None? || c.expiresAt.value > a.now)
        && a.permission in c.permissions && a.matches;
      if !valid {
        c := c.(failedAttempts := c.failedAttempts + 1);
        if c.failedAttempts >= MAX_FAILURES {
          c := c.(blockedUntil := Some(a.now + BLOCK), failedAttempts := 0);
        }
        credential := Some(c);
        return Denied;
      }
      credential := Some(c.(failedAttempts := 0, blockedUntil := None));
      return Granted;
    }
  }

  function Bootstrapped(now: int): Credential {
    Credential(0, None, false, Some(now + BOOTSTRAP_LIFETIME), {"execution:pause", "execution:resume", "execution:read"})
  }

  /** The bootstrapped credential can pause, resume and read for thirty days, and nothing else. */
  lemma BootstrapMeaning(now: int, a: Attempt)
    requires !a.emptyToken && a.matches && now <= a.now
    ensures Verify(Bootstrapped(now), a) == Granted <==>
      a.now < now + 30 * 24 * 60 * 60 * 1_000_000
      && (a.permission == "execution:pause" || a.permission == "execution:resume" || a.permission == "execution:read")
  {
  }
}
