/**
 * Any number of sessions inside `set_paused` at once. Each step is one database round trip: the first retry
 * check, the row read, the second retry check, the compare-and-swap, and the retry check after a lost swap.
 */
module ControlSessions {
  import opened Outcomes
  import opened ExecutionControl

  /** How far a session is in its call; `since` is the revision when the call began. */
  datatype Session =
    | Idle
    | Started(call: Call, since: nat)
    | Cleared(call: Call, since: nat)
    | Reading(call: Call, since: nat, seen: Row)
    | Ready(call: Call, since: nat, seen: Row)
    | Lost(call: Call, since: nat, seen: Row)

  /** A finished call: it ran between revisions `since` and `until`; `point` is where it takes effect. */
  datatype Response = Response(
    call: Call, outcome: Result<Row, ControlError>, since: nat, until: nat, point: nat, applied: bool)

  datatype World = World(db: Db, sessions: seq<Session>, log: seq<Response>)

  datatype Action = Begin(i: nat, call: Call) | Advance(i: nat, now: int) | Abandon(i: nat)

  datatype Progress = Progress(db: Db, session: Session, reply: Option<Response>)

  function Proceed(db: Db, session: Session): Progress { Progress(db, session, None) }

  function Answer(db: Db, s: Session, outcome: Result<Row, ControlError>, point: nat): Progress
    requires !s.Idle?
  {
    Progress(db, Idle, Some(Response(s.call, outcome, s.since, db.row.revision, point, false)))
  }

  /** The next database round trip of a session. */
  function Move(db: Db, s: Session, now: int): Progress
    requires !s.Idle?
  {
    var retry := Retry(db, s.call);
    match s
    case Started(call, since) =>
      if retry.Some? then Answer(db, s, retry.value, db.row.revision) else Proceed(db, Cleared(call, since))
    case Cleared(call, since) =>
      Proceed(db, Reading(call, since, db.row))
    case Reading(call, since, seen) =>
      if retry.Some? then Answer(db, s, retry.value, db.row.revision)
      else if call.expected.Some? && call.expected.value != seen.revision
        then Answer(db, s, Err(RevisionConflict), seen.revision)
      else Proceed(db, Ready(call, since, seen))
    case Ready(call, since, seen) =>
      if db.row.revision != seen.revision then Proceed(db, Lost(call, since, seen))
      else
        var after := Commit(db, seen, call, now);
        Progress(after, Idle,
          Some(Response(call, Ok(after.row), since, after.row.revision, seen.revision, true)))
    case Lost(call, since, seen) =>
      Answer(db, s, if retry.Some? then retry.value else Err(RevisionConflict), db.row.revision)
  }

  /** One action of any session; an action that does not apply changes nothing. */
  function Step(w: World, a: Action): World {
    if a.i >= |w.sessions| then w
    else
      var s := w.sessions[a.i];
      match a
      case Begin(i, call) =>
        if s.Idle? then w.(sessions := w.sessions[i := Started(call, w.db.row.revision)]) else w
      case Advance(i, now) =>
        if s.Idle? then w
        else
          var p := Move(w.db, s, now);
          World(p.db, w.sessions[i := p.session], if p.reply.Some? then w.log + [p.reply.value] else w.log)
      case Abandon(i) => w.(sessions := w.sessions[i := Idle])
  }

  function Run(w: World, actions: seq<Action>): World
    decreases |actions|
  {
    if actions == [] then w else Run(Step(w, actions[0]), actions[1..])
  }

  function Start(n: nat): World {
    World(Initial(), seq(n, _ => Idle), [])
  }

  // ---- What every interleaving keeps ----

  /** The store after its first v commits. */
  function At(db: Db, v: nat): Db
    requires v <= |db.requests| == |db.events|
  {
    Db(RowAt(db, v), db.events[..v], db.requests[..v])
  }

  function Bound(db: Db, v: nat, requestId: string): Option<nat>
    requires v <= |db.requests|
  {
    BoundAt(db.requests[..v], requestId)
  }

  ghost predicate SeenOk(db: Db, since: nat, seen: Row)
    requires Inv(db)
  {
    since <= seen.revision <= db.row.revision && seen == RowAt(db, seen.revision)
  }

  /** The request id was unbound in the row the session read, which is the revision it expects. */
  ghost predicate Checked(db: Db, call: Call, seen: Row)
    requires Inv(db) && seen.revision <= db.row.revision
  {
    && Bound(db, seen.revision, call.requestId).None?
    && (call.expected.Some? ==> call.expected.value == seen.revision)
  }

  ghost predicate SessionOk(db: Db, s: Session)
    requires Inv(db)
  {
    match s
    case Idle => true
    case Started(call, since) => since <= db.row.revision
    case Cleared(call, since) => since <= db.row.revision
    case Reading(call, since, seen) => SeenOk(db, since, seen)
    case Ready(call, since, seen) => SeenOk(db, since, seen) && Checked(db, call, seen)
    case Lost(call, since, seen) => SeenOk(db, since, seen) && Checked(db, call, seen) && seen.revision < db.row.revision
  }

  /** A response is the one a call running alone would get from the store at this point, unchanged by it. */
  ghost predicate Answered(db: Db, r: Response)
    requires Inv(db) && r.point <= db.row.revision
  {
    forall now :: Transition(At(db, r.point), r.call, now) == (At(db, r.point), r.outcome)
  }

  /** The call is the commit that led from its point to the next revision. */
  ghost predicate Committed(db: Db, r: Response)
    requires Inv(db) && r.point < db.row.revision
  {
    Transition(At(db, r.point), r.call, db.events[r.point].at) == (At(db, r.point + 1), r.outcome)
  }

  /** A call without an expected revision lost its swap to another call that committed while it ran. */
  ghost predicate Overtaken(db: Db, r: Response)
    requires Inv(db) && r.until <= db.row.revision
  {
    && r.outcome == Err(RevisionConflict)
    && r.call.expected.None?
    && r.since < r.until
    && Bound(db, r.until, r.call.requestId).None?
  }

  ghost predicate Explained(db: Db, r: Response)
    requires Inv(db)
  {
    && r.since <= r.point <= r.until <= db.row.revision
    && if r.applied then r.point < r.until && Committed(db, r) else Answered(db, r) || Overtaken(db, r)
  }

  /** The requests of the responses that committed, in order. */
  function Applied(log: seq<Response>): seq<Request> {
    if log == [] then []
    else
      var r := log[|log| - 1];
      Applied(log[..|log| - 1]) + if r.applied && r.outcome.Ok? then [Request(r.call, r.outcome.value)] else []
  }

  ghost predicate Good(w: World) {
    && Inv(w.db)
    && (forall i :: 0 <= i < |w.sessions| ==> SessionOk(w.db, w.sessions[i]))
    && (forall k :: 0 <= k < |w.log| ==> Explained(w.db, w.log[k]))
    && Applied(w.log) == w.db.requests
  }

  /** The store grew: nothing recorded before was changed. */
  ghost predicate Grew(before: Db, after: Db) {
    && Inv(before) && Inv(after)
    && before.requests <= after.requests
    && before.events <= after.events
  }

  lemma AtStable(before: Db, after: Db, v: nat)
    requires Grew(before, after) && v <= |before.requests|
    ensures At(before, v) == At(after, v)
  {
    assert before.requests[..v] == after.requests[..v];
    assert before.events[..v] == after.events[..v];
  }

  lemma SessionStable(before: Db, after: Db, s: Session)
    requires Grew(before, after) && SessionOk(before, s)
    ensures SessionOk(after, s)
  {
    if s.Reading? || s.Ready? || s.Lost? {
      AtStable(before, after, s.seen.revision);
    }
  }

  lemma ExplainedStable(before: Db, after: Db, r: Response)
    requires Grew(before, after) && Explained(before, r)
    ensures Explained(after, r)
  {
    AtStable(before, after, r.point);
    AtStable(before, after, r.until);
    if r.applied {
      AtStable(before, after, r.point + 1);
      assert before.events[r.point] == after.events[r.point];
      assert Committed(after, r);
    } else if Answered(before, r) {
      assert Answered(after, r);
    } else {
      assert Overtaken(after, r);
    }
  }

  lemma NowIsAt(db: Db)
    requires Inv(db)
    ensures At(db, db.row.revision) == db
  {
    assert db.requests[..db.row.revision] == db.requests;
    assert db.events[..db.row.revision] == db.events;
  }

  /** A bound id stays bound: unbound now means unbound before. */
  lemma UnboundBefore(db: Db, v: nat, requestId: string)
    requires v <= |db.requests| && BoundAt(db.requests, requestId).None?
    ensures Bound(db, v, requestId).None?
  {
    assert forall j :: 0 <= j < v ==> db.requests[..v][j] == db.requests[j];
  }

  /** A step that writes nothing keeps its session in order and answers as a call running alone would. */
  lemma QuietMove(db: Db, s: Session, now: int)
    requires Inv(db) && !s.Idle? && SessionOk(db, s)
    requires !(s.Ready? && db.row.revision == s.seen.revision)
    ensures var p := Move(db, s, now);
      p.db == db && SessionOk(db, p.session)
      && (p.reply.Some? ==> Explained(db, p.reply.value) && !p.reply.value.applied)
  {
    NowIsAt(db);
    var retry := Retry(db, s.call);
    if s.Reading? && retry.None? {
      UnboundBefore(db, s.seen.revision, s.call.requestId);
    }
    if s.Lost? && retry.None? {
      UnboundBefore(db, db.row.revision, s.call.requestId);
    }
  }

  /** A matched swap commits an unbound request over the row the session read. */
  lemma WinningMove(db: Db, s: Session, now: int)
    requires Inv(db) && s.Ready? && SessionOk(db, s) && db.row.revision == s.seen.revision
    ensures var p := Move(db, s, now);
      && Grew(db, p.db) && p.session.Idle? && p.reply.Some?
      && p.reply.value.applied && p.reply.value.outcome.Ok? && Explained(p.db, p.reply.value)
      && p.reply.value.point == db.row.revision && p.db.row.revision == db.row.revision + 1
      && p.reply.value.call == s.call && p.db.requests == db.requests + [Request(s.call, p.reply.value.outcome.value)]
  {
    var p := Move(db, s, now);
    NowIsAt(db);
    CommitKeeps(db, s.call, now);
    NowIsAt(p.db);
    AtStable(db, p.db, s.seen.revision);
    assert p.db.events[s.seen.revision].at == now;
    assert Committed(p.db, p.reply.value);
  }

  lemma AppliedSnoc(log: seq<Response>, r: Response)
    ensures Applied(log + [r]) == Applied(log) + if r.applied && r.outcome.Ok? then [Request(r.call, r.outcome.value)] else []
  {
    assert (log + [r])[..|log|] == log;
  }

  lemma AdvanceKeeps(w: World, i: nat, now: int)
    requires Good(w) && i < |w.sessions| && !w.sessions[i].Idle?
    ensures var after := Step(w, Advance(i, now)); Good(after) && Grew(w.db, after.db)
  {
    hide Move, Inv, Explained, SessionOk, Applied;
    var s, after := w.sessions[i], Step(w, Advance(i, now));
    var p := Move(w.db, s, now);
    if s.Ready? && w.db.row.revision == s.seen.revision {
      WinningMove(w.db, s, now);
    } else {
      QuietMove(w.db, s, now);
    }
    IdleOk(p.db);
    forall j | 0 <= j < |after.sessions| ensures SessionOk(after.db, after.sessions[j]) {
      if j != i {
        SessionStable(w.db, after.db, w.sessions[j]);
      }
    }
    forall k | 0 <= k < |w.log| ensures Explained(after.db, w.log[k]) {
      ExplainedStable(w.db, after.db, w.log[k]);
    }
    if p.reply.Some? {
      AppliedSnoc(w.log, p.reply.value);
      assert Applied(w.log) + [] == Applied(w.log);
    }
  }

  /**
   * What an action does beyond a move of its session: a call begins at the current revision in an idle session only,
   * an abandoned session is idle, and neither writes anything. A bound id is answered at the first check, before any row is read.
   */
  lemma StepMeaning(w: World, i: nat, call: Call, now: int)
    requires i < |w.sessions|
    ensures Step(w, Abandon(i)) == w.(sessions := w.sessions[i := Idle])
    ensures w.sessions[i].Idle? ==>
      Step(w, Begin(i, call)) == w.(sessions := w.sessions[i := Started(call, w.db.row.revision)])
      && Step(w, Advance(i, now)) == w
    ensures !w.sessions[i].Idle? ==> Step(w, Begin(i, call)) == w
    ensures w.sessions[i].Started? && !Unbound(w.db, w.sessions[i].call.requestId) ==>
      Step(w, Advance(i, now)).sessions[i].Idle? && |Step(w, Advance(i, now)).log| == |w.log| + 1
  {
  }

  lemma IdleOk(db: Db)
    requires Inv(db)
    ensures SessionOk(db, Idle)
  {
  }

  lemma StepKeeps(w: World, a: Action)
    requires Good(w)
    ensures Good(Step(w, a)) && Grew(w.db, Step(w, a).db)
  {
    if a.Advance? && a.i < |w.sessions| && !w.sessions[a.i].Idle? {
      AdvanceKeeps(w, a.i, a.now);
    }
  }

  lemma {:induction false} RunKeeps(w: World, actions: seq<Action>)
    requires Good(w)
    ensures Good(Run(w, actions)) && Grew(w.db, Run(w, actions).db)
    decreases |actions|
  {
    if actions != [] {
      StepKeeps(w, actions[0]);
      RunKeeps(Step(w, actions[0]), actions[1..]);
    }
  }

  // ---- Theorems about every run of every number of sessions ----

  lemma StartGood(n: nat)
    ensures Good(Start(n))
  {
  }

  /**
   * Linearizability: every response is that of a call running alone at one revision between its begin and its
   * return, or it is a revision conflict without an expected revision that another call overtook. The responses
   * that committed are the bound requests, one for each revision, in order.
   */
  lemma Linearizable(n: nat, actions: seq<Action>, k: nat)
    requires k < |Run(Start(n), actions).log|
    ensures var w := Run(Start(n), actions);
      Inv(w.db) && Explained(w.db, w.log[k]) && Applied(w.log) == w.db.requests
  {
    StartGood(n);
    RunKeeps(Start(n), actions);
  }

  /** A successful response names a bound request, recorded before it returned. */
  lemma SuccessIsBound(db: Db, r: Response) returns (k: nat)
    requires Inv(db) && Explained(db, r) && r.outcome.Ok?
    ensures k < r.until && db.requests[k] == Request(r.call, r.outcome.value)
    ensures r.applied ==> k == r.point
  {
    if r.applied {
      k := r.point;
      assert |At(db, k).requests| == k && |At(db, k + 1).requests| == k + 1;
      assert At(db, k + 1).requests[k] == db.requests[k];
    } else {
      var before := At(db, r.point);
      assert Transition(before, r.call, 0) == (before, r.outcome);
      assert |Commit(before, before.row, r.call, 0).requests| == |before.requests| + 1;
      k := BoundAt(before.requests, r.call.requestId).value;
    }
  }

  /** No request id is applied twice, even without an expected revision: two successes share arguments and snapshot. */
  lemma SameIdSameResult(n: nat, actions: seq<Action>, i: nat, j: nat)
    requires var log := Run(Start(n), actions).log;
      i < j < |log| && log[i].outcome.Ok? && log[j].outcome.Ok? && log[i].call.requestId == log[j].call.requestId
    ensures var log := Run(Start(n), actions).log;
      log[i].call == log[j].call && log[i].outcome == log[j].outcome
  {
    var w := Run(Start(n), actions);
    Linearizable(n, actions, i);
    Linearizable(n, actions, j);
    var a := SuccessIsBound(w.db, w.log[i]);
    var b := SuccessIsBound(w.db, w.log[j]);
  }

  /** At most one call commits at any revision. */
  lemma {:induction false} OneCommitPerRevision(n: nat, actions: seq<Action>, i: nat, j: nat)
    requires var log := Run(Start(n), actions).log;
      i < j < |log| && log[i].applied && log[j].applied
    ensures var log := Run(Start(n), actions).log;
      log[i].point != log[j].point && log[i].call.requestId != log[j].call.requestId
  {
    StartGood(n);
    CommitsAreOrdered(Start(n), actions, i, j);
    var w := Run(Start(n), actions);
    Linearizable(n, actions, i);
    Linearizable(n, actions, j);
    AppliedOk(w.db, w.log[i]);
    AppliedOk(w.db, w.log[j]);
    var a := SuccessIsBound(w.db, w.log[i]);
    var b := SuccessIsBound(w.db, w.log[j]);
  }

  lemma AppliedOk(db: Db, r: Response)
    requires Inv(db) && Explained(db, r) && r.applied
    ensures r.outcome.Ok?
  {
    assert |At(db, r.point).requests| == r.point && |At(db, r.point + 1).requests| == r.point + 1;
    assert At(db, r.point) != At(db, r.point + 1);
  }

  ghost predicate Ordered(w: World) {
    && (forall k :: 0 <= k < |w.log| && w.log[k].applied ==> w.log[k].point < w.db.row.revision)
    && (forall i, j :: 0 <= i < j < |w.log| && w.log[i].applied && w.log[j].applied ==> w.log[i].point < w.log[j].point)
  }

  lemma OrderedStep(w: World, a: Action)
    requires Good(w) && Ordered(w)
    ensures Ordered(Step(w, a))
  {
    hide Move, Inv, Explained, SessionOk, Applied;
    if a.Advance? && a.i < |w.sessions| && !w.sessions[a.i].Idle? {
      var s := w.sessions[a.i];
      if s.Ready? && w.db.row.revision == s.seen.revision {
        WinningMove(w.db, s, a.now);
      } else {
        QuietMove(w.db, s, a.now);
      }
    }
  }

  lemma {:induction false} OrderedKeeps(w: World, actions: seq<Action>)
    requires Good(w) && Ordered(w)
    ensures Ordered(Run(w, actions))
    decreases |actions|
  {
    if actions != [] {
      StepKeeps(w, actions[0]);
      OrderedStep(w, actions[0]);
      OrderedKeeps(Step(w, actions[0]), actions[1..]);
    }
  }

  lemma CommitsAreOrdered(w: World, actions: seq<Action>, i: nat, j: nat)
    requires Good(w) && w.log == [] && i < j < |Run(w, actions).log|
    requires Run(w, actions).log[i].applied && Run(w, actions).log[j].applied
    ensures Run(w, actions).log[i].point < Run(w, actions).log[j].point
  {
    OrderedKeeps(w, actions);
  }

  /** A call begun after an equal call had succeeded returns that call's snapshot: it can neither fail nor apply again. */
  lemma RepeatAfterSuccess(n: nat, actions: seq<Action>, i: nat, j: nat)
    requires var log := Run(Start(n), actions).log;
      i < |log| && j < |log| && log[i].outcome.Ok? && log[i].call == log[j].call && log[i].until <= log[j].since
    ensures var log := Run(Start(n), actions).log;
      log[j].outcome == log[i].outcome && !log[j].applied
  {
    var w := Run(Start(n), actions);
    Linearizable(n, actions, i);
    Linearizable(n, actions, j);
    var r := w.log[j];
    var k := SuccessIsBound(w.db, w.log[i]);
    var before := At(w.db, r.point);
    assert before.requests[k] == w.db.requests[k];
    var m := BoundAt(before.requests, r.call.requestId);
    assert m.Some? && before.requests[m.value] == w.db.requests[m.value] && m.value == k;
    assert Transition(before, r.call, 0) == (before, w.log[i].outcome);
    assert r.point < w.db.row.revision ==> |At(w.db, r.point + 1).requests| == r.point + 1;
    assert w.db.requests[..r.until][k] == w.db.requests[k];
    assert Bound(w.db, r.until, r.call.requestId).Some?;
  }

  lemma RunOne(w: World, a: Action, rest: seq<Action>)
    ensures Run(w, [a] + rest) == Run(Step(w, a), rest)
  {
  }

  lemma RunFour(w: World, a: Action, b: Action, c: Action, d: Action, rest: seq<Action>)
    ensures Run(w, [a, b, c, d] + rest) == Run(Step(Step(Step(Step(w, a), b), c), d), rest)
  {
    hide Run, Step;
    RunOne(w, a, [b, c, d] + rest);
    RunOne(Step(w, a), b, [c, d] + rest);
    RunOne(Step(Step(w, a), b), c, [d] + rest);
    RunOne(Step(Step(Step(w, a), b), c), d, rest);
    assert [a, b, c, d] + rest == [a] + ([b, c, d] + rest);
    assert [b, c, d] + rest == [b] + ([c, d] + rest);
    assert [c, d] + rest == [c] + ([d] + rest);
  }

  /** A step of session i is a move of that session. */
  lemma StepIsMove(w: World, i: nat, now: int)
    requires i < |w.sessions| && !w.sessions[i].Idle?
    ensures var p, after := Move(w.db, w.sessions[i], now), Step(w, Advance(i, now));
      && after.db == p.db && |after.sessions| == |w.sessions| && after.sessions[i] == p.session
      && after.log == if p.reply.Some? then w.log + [p.reply.value] else w.log
  {
  }

  lemma IdleStays(w: World, i: nat, now: int)
    requires i < |w.sessions| && w.sessions[i].Idle?
    ensures Step(w, Advance(i, now)) == w
  {
  }

  /** This move ends the call as the sequential specification would. */
  predicate AloneAnswer(p: Progress, db: Db, call: Call, now: int) {
    p.session.Idle? && p.reply.Some? && Transition(db, call, now) == (p.db, p.reply.value.outcome)
  }

  lemma SoloMoves(db: Db, call: Call, since: nat, now: int)
    ensures var p1 := Move(db, Started(call, since), now);
      var p2 := Move(db, Cleared(call, since), now);
      var p3 := Move(db, Reading(call, since, db.row), now);
      var p4 := Move(db, Ready(call, since, db.row), now);
      && p1.db == p2.db == p3.db == db
      && (p1 == Proceed(db, Cleared(call, since)) || AloneAnswer(p1, db, call, now))
      && p2 == Proceed(db, Reading(call, since, db.row))
      && (p3 == Proceed(db, Ready(call, since, db.row)) || AloneAnswer(p3, db, call, now))
      && (p3.reply.None? && p1.reply.None? ==> AloneAnswer(p4, db, call, now))
  {
    hide Commit, BoundAt;
  }

  /** A run of one session alone is the call of the sequential specification. */
  lemma SoloRunIsTransition(w: World, i: nat, call: Call, now: int)
    requires Good(w) && i < |w.sessions| && w.sessions[i].Idle?
    ensures var go := Advance(i, now);
      var after := Run(w, [Begin(i, call), go, go, go] + [go]);
      var alone := Transition(w.db, call, now);
      after.db == alone.0 && |after.log| == |w.log| + 1 && after.log[|w.log|].outcome == alone.1
  {
    var go := Advance(i, now);
    var w1 := Step(w, Begin(i, call));
    var w2 := Step(w1, go);
    var w3 := Step(w2, go);
    var w4 := Step(w3, go);
    var w5 := Step(w4, go);
    assert Run(w, [Begin(i, call), go, go, go] + [go]) == w5 by {
      hide Step;
      RunFour(w, Begin(i, call), go, go, go, [go]);
      RunOne(w4, go, []);
    }
    assert w1.db == w.db && w1.log == w.log && |w1.sessions| == |w.sessions|
      && w1.sessions[i] == Started(call, w.db.row.revision);
    hide Step, Good, Move, Transition;
    SoloMoves(w.db, call, w.db.row.revision, now);
    StepIsMove(w1, i, now);
    if w2.sessions[i].Idle? {
      IdleStays(w2, i, now);
      IdleStays(w2, i, now);
    } else {
      StepIsMove(w2, i, now);
      StepIsMove(w3, i, now);
      if w4.sessions[i].Idle? {
        IdleStays(w4, i, now);
      } else {
        StepIsMove(w4, i, now);
      }
    }
  }

  /** Why there are two checks: a session past the first check can hold the current row while its id is already bound. */
  lemma SecondCheckNeeded(call: Call, now: int)
    requires call.expected.None?
    ensures var w := Run(Start(2), [Begin(0, call), Advance(0, now), Begin(1, call), Advance(1, now)]
        + ([Advance(1, now), Advance(1, now), Advance(1, now), Advance(0, now)] + []));
      && |w.sessions| == 2
      && w.sessions[0] == Reading(call, 0, w.db.row)
      && w.db.row.revision == 1
      && BoundAt(w.db.requests, call.requestId).Some?
  {
    var w0 := Start(2);
    var a, b := Advance(0, now), Advance(1, now);
    var w1 := Step(Step(Step(Step(w0, Begin(0, call)), a), Begin(1, call)), b);
    assert w1 == World(Initial(), [Cleared(call, 0), Cleared(call, 0)], []) by {
      assert w0.sessions == [Idle, Idle];
    }
    var db := Commit(Initial(), BOOTSTRAP, call, now);
    var w2 := Step(Step(Step(w1, b), b), b);
    assert w2.db == db && w2.sessions == [Cleared(call, 0), Idle];
    assert BoundAt(db.requests, call.requestId).Some?;
    RunFour(w0, Begin(0, call), a, Begin(1, call), b, [b, b, b, a] + []);
    RunFour(w1, b, b, b, a, []);
  }
}
