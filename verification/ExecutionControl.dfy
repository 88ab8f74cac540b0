/** The durable pause/resume control: one row, its audit log, and the requests bound to their results (app/services/execution_control.py). */
module ExecutionControl {
  import opened Outcomes
  import opened Text

  /** The control row, which is also the snapshot a call returns. */
  datatype Row = Row(paused: bool, revision: nat, requestId: string, actor: string, reason: string, updatedAt: int)

  /** The row `_row` inserts when there is none. */
  const BOOTSTRAP: Row := Row(true, 0, "bootstrap", "system", "startup safety default", 0)

  datatype Event = Event(
    active: bool, actor: string, reason: string, at: int, previous: bool, requestId: string, revision: nat)

  /** Normalized arguments: what a request id is bound to. */
  datatype Call = Call(paused: bool, actor: string, reason: string, requestId: string, expected: Option<int>)

  datatype Request = Request(call: Call, result: Row)

  datatype Db = Db(row: Row, events: seq<Event>, requests: seq<Request>)

  datatype ControlError = ReasonRequired | IdempotencyConflict | RevisionConflict

  function Initial(): Db { Db(BOOTSTRAP, [], []) }

  /** Strip the texts; a missing or blank request id is replaced by a generated one. */
  function Normalize(
    paused: bool, actor: string, reason: string, requestId: Option<string>, expected: Option<int>, generated: string)
    : Result<Call, ControlError>
  {
    if Strip(reason) == "" then Err(ReasonRequired)
    else
      var given := if requestId.Some? then Strip(requestId.value) else "";
      Ok(Call(paused, Strip(actor), Strip(reason), if given != "" then given else generated, expected))
  }

  /** A caller that repeats a call with the id and the texts it was bound to binds the same call again. */
  lemma NormalizedAgain(
    paused: bool, actor: string, reason: string, requestId: Option<string>, expected: Option<int>, generated: string,
    other: string)
    requires Strip(generated) == generated != ""
    requires Normalize(paused, actor, reason, requestId, expected, generated).Ok?
    ensures var call := Normalize(paused, actor, reason, requestId, expected, generated).value;
      Normalize(call.paused, call.actor, call.reason, Some(call.requestId), call.expected, other) == Ok(call)
  {
    hide Strip;
    StripIdempotent(actor);
    StripIdempotent(reason);
    if requestId.Some? {
      StripIdempotent(requestId.value);
    }
  }

  function BoundAt(requests: seq<Request>, requestId: string): (r: Option<nat>)
    ensures r.Some? ==> r.value < |requests| && requests[r.value].call.requestId == requestId
    ensures forall j :: 0 <= j < (if r.Some? then r.value else |requests|) ==> requests[j].call.requestId != requestId
  {
    if requests == [] then None
    else if requests[0].call.requestId == requestId then Some(0)
    else
      var rest := BoundAt(requests[1..], requestId);
      if rest.None? then None else Some(rest.value + 1)
  }

  /** `_retry`: None lets the call proceed; a bound id replays its result or conflicts. */
  function Retry(db: Db, call: Call): Option<Result<Row, ControlError>> {
    var k := BoundAt(db.requests, call.requestId);
    if k.None? then None
    else if db.requests[k.value].call != call then Some(Err(IdempotencyConflict))
    else Some(Ok(db.requests[k.value].result))
  }

  function ResultRow(call: Call, revision: nat, now: int): Row {
    Row(call.paused, revision, call.requestId, call.actor, call.reason, now)
  }

  /** What a matched compare-and-swap writes: the row after `seen`, its audit event and its bound request. */
  function Commit(db: Db, seen: Row, call: Call, now: int): Db {
    var next := ResultRow(call, seen.revision + 1, now);
    Db(next,
      db.events + [Event(call.paused, call.actor, call.reason, now, seen.paused, call.requestId, next.revision)],
      db.requests + [Request(call, next)])
  }

  /** A call that runs alone. */
  function Transition(db: Db, call: Call, now: int): (Db, Result<Row, ControlError>) {
    var retry := Retry(db, call);
    if retry.Some? then (db, retry.value)
    else if call.expected.Some? && call.expected.value != db.row.revision then (db, Err(RevisionConflict))
    else (Commit(db, db.row, call, now), Ok(Commit(db, db.row, call, now).row))
  }

  /** A call from its raw arguments. */
  function SetPausedAlone(
    db: Db, paused: bool, actor: string, reason: string, requestId: Option<string>, expected: Option<int>,
    generated: string, now: int): (Db, Result<Row, ControlError>)
  {
    var call := Normalize(paused, actor, reason, requestId, expected, generated);
    if call.Err? then (db, Err(call.error)) else Transition(db, call.value, now)
  }

  // ---- The store's invariant ----

  /** The row after the first v transitions. */
  function RowAt(db: Db, v: nat): Row
    requires v <= |db.requests|
  {
    if v == 0 then BOOTSTRAP else db.requests[v - 1].result
  }

  /** Entry k of the audit log and of the requests record the same transition, from revision k to k + 1. */
  ghost predicate EntryOk(db: Db, k: nat)
    requires k < |db.requests| == |db.events|
  {
    var c, e, before := db.requests[k].call, db.events[k], RowAt(db, k);
    && db.requests[k].result == ResultRow(c, k + 1, e.at)
    && e == Event(c.paused, c.actor, c.reason, e.at, before.paused, c.requestId, k + 1)
    && (c.expected.Some? ==> c.expected.value == k)
  }

  ghost predicate Inv(db: Db) {
    && db.row.revision == |db.events| == |db.requests|
    && db.row == RowAt(db, |db.requests|)
    && (forall k :: 0 <= k < |db.requests| ==> EntryOk(db, k))
    && (forall i, j :: 0 <= i < j < |db.requests| ==> db.requests[i].call.requestId != db.requests[j].call.requestId)
  }

  /** A commit of an unbound id at the expected revision keeps the invariant. */
  lemma CommitKeeps(db: Db, call: Call, now: int)
    requires Inv(db) && BoundAt(db.requests, call.requestId).None?
    requires call.expected.None? || call.expected.value == db.row.revision
    ensures Inv(Commit(db, db.row, call, now))
  {
    var after, n := Commit(db, db.row, call, now), |db.requests|;
    forall k | 0 <= k < n + 1 ensures EntryOk(after, k) {
      if k < n {
        assert EntryOk(db, k);
      }
    }
  }

  lemma TransitionKeeps(db: Db, call: Call, now: int)
    requires Inv(db)
    ensures Inv(Transition(db, call, now).0)
    ensures Transition(db, call, now).1.Err? ==> Transition(db, call, now).0 == db
  {
    if Transition(db, call, now).0 != db {
      CommitKeeps(db, call, now);
    }
  }

  // ---- What a caller of `set_paused` gets ----

  /** The id the call goes by: the given one, stripped, unless that is blank. */
  ghost predicate GoesBy(requestId: Option<string>, generated: string, id: string) {
    id == if requestId.Some? && Strip(requestId.value) != "" then Strip(requestId.value) else generated
  }

  ghost predicate Unbound(db: Db, id: string) {
    forall k :: 0 <= k < |db.requests| ==> db.requests[k].call.requestId != id
  }

  /**
   * Every answer of a call and what it leaves. A blank reason is refused. An unbound id at the expected revision, or
   * with none expected, sets the pause flag as asked at the next revision, with its event and its bound request; at
   * another revision it is refused. A bound id answers with its snapshot if it was bound to the same arguments, and
   * is refused otherwise. Whatever is refused or repeated changes nothing.
   */
  ghost predicate Answers(
    db: Db, paused: bool, actor: string, reason: string, id: string, expected: Option<int>, now: int,
    after: Db, r: Result<Row, ControlError>)
  {
    var next := Row(paused, db.row.revision + 1, id, Strip(actor), Strip(reason), now);
    && (Strip(reason) == "" ==> after == db && r == Err(ReasonRequired))
    && (Strip(reason) != "" && Unbound(db, id) && (expected.None? || expected.value == db.row.revision) ==>
      && r == Ok(next) && after.row == next
      && after.events == db.events
        + [Event(paused, Strip(actor), Strip(reason), now, db.row.paused, id, db.row.revision + 1)]
      && after.requests == db.requests + [Request(Call(paused, Strip(actor), Strip(reason), id, expected), next)])
    && (Strip(reason) != "" && Unbound(db, id) && expected.Some? && expected.value != db.row.revision ==>
      after == db && r == Err(RevisionConflict))
    && (forall k :: Strip(reason) != "" && 0 <= k < |db.requests| && db.requests[k].call.requestId == id ==>
      && after == db
      && var c := db.requests[k].call;
        r == if c.paused == paused && c.actor == Strip(actor) && c.reason == Strip(reason) && c.expected == expected
             then Ok(db.requests[k].result) else Err(IdempotencyConflict))
  }

  lemma SetPausedAnswers(
    db: Db, paused: bool, actor: string, reason: string, requestId: Option<string>, expected: Option<int>,
    generated: string, now: int, id: string)
    requires Inv(db) && GoesBy(requestId, generated, id)
    ensures var (after, r) := SetPausedAlone(db, paused, actor, reason, requestId, expected, generated, now);
      Answers(db, paused, actor, reason, id, expected, now, after, r)
  {
    hide Strip;
    var m := BoundAt(db.requests, id);
    forall k | 0 <= k < |db.requests| && db.requests[k].call.requestId == id ensures m == Some(k) {
      assert m.Some? && !(m.value < k) && !(k < m.value);
    }
  }

  /** A resume resumes: on a new store, any caller with a reason. */
  lemma FirstResumeResumes(actor: string, reason: string, requestId: Option<string>, generated: string, now: int)
    requires Strip(reason) != ""
    ensures var (after, r) := SetPausedAlone(Initial(), false, actor, reason, requestId, None, generated, now);
      r.Ok? && !r.value.paused && r.value.revision == 1 && after.row == r.value
  {
    var id := if requestId.Some? && Strip(requestId.value) != "" then Strip(requestId.value) else generated;
    SetPausedAnswers(Initial(), false, actor, reason, requestId, None, generated, now, id);
  }

  /** Replaying the audit log from the bootstrap row. */
  function Replay(events: seq<Event>): Row {
    if events == [] then BOOTSTRAP
    else
      var e := events[|events| - 1];
      Row(e.active, Replay(events[..|events| - 1]).revision + 1, e.requestId, e.actor, e.reason, e.at)
  }

  /** The log alone rebuilds the control row, and each event's `previous` is what the one before it left. */
  lemma {:induction false} LogRebuildsRow(db: Db, v: nat)
    requires Inv(db) && v <= |db.events|
    ensures Replay(db.events[..v]) == RowAt(db, v) && RowAt(db, v).revision == v
    ensures v < |db.events| ==> db.events[v].previous == Replay(db.events[..v]).paused && db.events[v].revision == v + 1
    ensures v == |db.events| ==> Replay(db.events) == db.row
  {
    if v > 0 {
      LogRebuildsRow(db, v - 1);
      assert db.events[..v][..v - 1] == db.events[..v - 1];
      assert EntryOk(db, v - 1);
      assert db.events[..v][v - 1] == db.events[v - 1];
    }
    if v < |db.events| {
      assert EntryOk(db, v);
    } else {
      assert db.events[..v] == db.events;
    }
  }

  /** Whatever happens in between, a repeated call returns its first result and changes nothing. */
  lemma RetryIsIdempotent(db: Db, call: Call, now: int, later: Db, repeatedAt: int)
    requires Inv(db) && Transition(db, call, now).1.Ok?
    requires Inv(later) && Transition(db, call, now).0.requests <= later.requests
    ensures Transition(later, call, repeatedAt) == (later, Transition(db, call, now).1)
  {
    var first := Transition(db, call, now);
    var k := BoundAt(first.0.requests, call.requestId);
    if Retry(db, call).None? {
      assert first.0.requests[|db.requests|].call == call;
    }
    assert k.Some? && first.0.requests[k.value] == later.requests[k.value];
    var m := BoundAt(later.requests, call.requestId);
    assert m.Some? && !(m.value < k.value) && !(k.value < m.value);
  }

  // ---- The service over its stored rows ----

  /** One session using the service alone, where the second look-up of `set_paused` sees what the first saw; ControlSessions interleaves many. */
  class Control {
    var row: Option<Row>
    var events: seq<Event>
    var requests: seq<Request>

    /** The stored rows; a control row that does not exist yet reads as the bootstrap row. */
    function Stored(): Db
      reads this
    {
      Db(if row.Some? then row.value else BOOTSTRAP, events, requests)
    }

    ghost predicate Valid()
      reads this
    {
      Inv(Stored())
    }

    constructor ()
      ensures Valid() && Stored() == Initial()
    {
      row, events, requests := None, [], [];
    }

    /** `_row`: fetch the control row, inserting the paused bootstrap row on first use. */
    method FetchRow() returns (r: Row)
      modifies this`row
      ensures Stored() == old(Stored()) && r == Stored().row && row == Some(r)
    {
      if row.None? {
        row := Some(BOOTSTRAP);
      }
      r := row.value;
    }

    method Snapshot() returns (r: Row)
      requires Valid()
      modifies this`row
      ensures Valid() && Stored() == old(Stored()) && r == Stored().row
    {
      r := FetchRow();
    }

    method AssertEntriesAllowed() returns (allowed: bool)
      requires Valid()
      modifies this`row
      ensures Valid() && Stored() == old(Stored()) && (allowed <==> !Stored().row.paused)
    {
      var s := Snapshot();
      allowed := !s.paused;
    }

    method SetPaused(
      paused: bool, actor: string, reason: string, requestId: Option<string>, expected: Option<int>,
      generated: string, now: int) returns (r: Result<Row, ControlError>)
      requires Valid()
      modifies this
      ensures Valid()
      ensures Stored() == SetPausedAlone(old(Stored()), paused, actor, reason, requestId, expected, generated, now).0
      ensures r == SetPausedAlone(old(Stored()), paused, actor, reason, requestId, expected, generated, now).1
      ensures forall id :: GoesBy(requestId, generated, id) ==>
        Answers(old(Stored()), paused, actor, reason, id, expected, now, Stored(), r)
    {
      forall id | GoesBy(requestId, generated, id) {
        SetPausedAnswers(Stored(), paused, actor, reason, requestId, expected, generated, now, id);
      }
      hide Answers, GoesBy, Strip;
      var normalized := Normalize(paused, actor, reason, requestId, expected, generated);
      if normalized.Err? {
        return Err(normalized.error);
      }
      var call := normalized.value;
      TransitionKeeps(Stored(), call, now);
      var retry := Retry(Stored(), call);
      if retry.Some? {
        return retry.value;
      }
      var current := FetchRow();
      if call.expected.Some? && call.expected.value != current.revision {
        return Err(RevisionConflict);
      }
      var next := ResultRow(call, current.revision + 1, now);
      row := Some(next);
      events := events + [Event(call.paused, call.actor, call.reason, now, current.paused, call.requestId, next.revision)];
      requests := requests + [Request(call, next)];
      return Ok(next);
    }
  }
}
