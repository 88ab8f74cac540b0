/**
 * The paper ledger beside the execution control it reads: every execution takes its pause flag from the control row
 * of that moment (`_eligibility_reasons` in app/services/paper.py), and pauses and resumes come in between.
 */
module ControlledLedger {
  import opened Outcomes
  import Control = ExecutionControl
  import opened PaperLedger
  import opened PaperInvariant
  import opened PaperRuns

  datatype World = World(control: Control.Db, ledger: State)

  datatype Action =
    | ControlAction(call: Control.Call, now: int)
    | LedgerAction(op: Op)

  /** A database that has never been used: paused, and without a position. */
  function Unused(): World { World(Control.Initial(), Empty()) }

  /** The execution as the source runs it, its pause flag read from the control row. */
  function Gated(req: ExecuteRequest, control: Control.Db): ExecuteRequest {
    req.(gate := req.gate.(paused := control.row.paused))
  }

  function GatedOp(op: Op, control: Control.Db): Op {
    if op.ExecuteOp? then ExecuteOp(Gated(op.execute, control)) else op
  }

  predicate ActionsValid(actions: seq<Action>) {
    forall a :: a in actions && a.LedgerAction? ==> a.op.Valid()
  }

  function Act(setup: Setup, w: World, a: Action): World
    requires a.LedgerAction? ==> a.op.Valid()
  {
    match a
    case ControlAction(call, now) => w.(control := Control.Transition(w.control, call, now).0)
    case LedgerAction(op) => w.(ledger := Apply(setup, w.ledger, GatedOp(op, w.control)))
  }

  function ActAll(setup: Setup, w: World, actions: seq<Action>): World
    requires ActionsValid(actions)
    decreases |actions|
  {
    if actions == [] then w
    else
      assert actions[0] in actions && forall a :: a in actions[1..] ==> a in actions;
      ActAll(setup, Act(setup, w, actions[0]), actions[1..])
  }

  lemma RestValid(actions: seq<Action>)
    requires ActionsValid(actions) && actions != []
    ensures ActionsValid(actions[1..]) && (actions[0].LedgerAction? ==> actions[0].op.Valid())
  {
    assert actions[0] in actions;
  }

  // ---- The ledger's theorems carry over ----

  /** The ledger operations of a run, each with the pause flag it found. */
  function LedgerOps(setup: Setup, w: World, actions: seq<Action>): (ops: seq<Op>)
    requires ActionsValid(actions)
    ensures AllValid(ops)
    decreases |actions|
  {
    if actions == [] then []
    else
      RestValid(actions);
      (if actions[0].LedgerAction? then [GatedOp(actions[0].op, w.control)] else [])
      + LedgerOps(setup, Act(setup, w, actions[0]), actions[1..])
  }

  lemma {:induction false} LedgerIsRun(setup: Setup, w: World, actions: seq<Action>)
    requires ActionsValid(actions)
    ensures ActAll(setup, w, actions).ledger == Run(setup, w.ledger, LedgerOps(setup, w, actions))
    decreases |actions|
  {
    hide Apply, Control.Transition;
    if actions != [] {
      RestValid(actions);
      LedgerIsRun(setup, Act(setup, w, actions[0]), actions[1..]);
      var rest := LedgerOps(setup, Act(setup, w, actions[0]), actions[1..]);
      if actions[0].LedgerAction? {
        var op := GatedOp(actions[0].op, w.control);
        assert ([op] + rest)[1..] == rest;
      } else {
        assert [] + rest == rest;
      }
    }
  }

  /** Control store and ledger keep their invariants together, and the control log only grows. */
  lemma {:induction false} WorldKeeps(setup: Setup, w: World, actions: seq<Action>)
    requires setup.Valid() && Control.Inv(w.control) && Inv(setup, w.ledger) && ActionsValid(actions)
    ensures var after := ActAll(setup, w, actions);
      && Control.Inv(after.control) && Inv(setup, after.ledger)
      && w.control.requests <= after.control.requests
    decreases |actions|
  {
    hide Inv, Apply, Control.Inv;
    if actions != [] {
      RestValid(actions);
      match actions[0] {
        case ControlAction(call, now) => Control.TransitionKeeps(w.control, call, now);
        case LedgerAction(op) => ApplyKeeps(setup, w.ledger, GatedOp(op, w.control));
      }
      WorldKeeps(setup, Act(setup, w, actions[0]), actions[1..]);
    }
  }

  lemma ApplyKeeps(setup: Setup, st: State, op: Op)
    requires setup.Valid() && Inv(setup, st) && op.Valid()
    ensures Inv(setup, Apply(setup, st, op))
  {
    hide Inv, Apply;
    RunKeeps(setup, st, [op]);
    RunOfOne(setup, st, op);
  }

  lemma RunOfOne(setup: Setup, st: State, op: Op)
    requires op.Valid()
    ensures Run(setup, st, [op]) == Apply(setup, st, op)
  {
    hide Apply;
    assert [op][1..] == [];
  }

  // ---- Entries and pauses ----

  /** The action opened the position: an execution of its signal, on a live contract, that found the control row unpaused. */
  ghost predicate OpenedBy(setup: Setup, before: World, a: Action, i: nat, signalId: int) {
    && a.LedgerAction? && AllowedEntry(GatedOp(a.op, before.control), signalId)
    && !before.control.row.paused
    && |before.ledger.positions| <= i < |Act(setup, before, a).ledger.positions|
  }

  /** An action that opens a position is an execution, and found the control row unpaused. */
  lemma OpensUnpaused(setup: Setup, w: World, a: Action, i: nat)
    requires a.LedgerAction? ==> a.op.Valid()
    requires |w.ledger.positions| <= i < |Act(setup, w, a).ledger.positions|
    ensures OpenedBy(setup, w, a, i, Act(setup, w, a).ledger.positions[i].signalId)
  {
    hide Execute, Settle, Mark;
    var op := GatedOp(a.op, w.control);
    match op {
      case ExecuteOp(req) => ExecuteOpensOnlyIfAllowed(setup, w.ledger, req, i);
      case MarkOp(id, mark) => MarkAddsNoPosition(w.ledger, id, mark);
      case SettleOp(req) => SettleAddsNoPosition(setup, w.ledger, req);
      case RunDueOp(pass) => SettleAllAddsNoPosition(setup, w.ledger, pass, DueIds(setup, w.ledger, pass, |w.ledger.positions|));
    }
  }

  lemma MarkAddsNoPosition(st: State, id: int, mark: real)
    ensures |Mark(st, id, mark).state.positions| == |st.positions|
  {
  }

  /**
   * Every position of a run was opened at some revision of the control store whose row was unpaused: action k
   * opened it, having found exactly that row.
   */
  lemma {:induction false} OpenedAtUnpausedRevision(setup: Setup, w: World, actions: seq<Action>, i: nat) returns (k: nat, v: nat)
    requires setup.Valid() && Control.Inv(w.control) && Inv(setup, w.ledger) && ActionsValid(actions)
    requires |w.ledger.positions| <= i < |ActAll(setup, w, actions).ledger.positions|
    ensures k < |actions| && ActionsValid(actions[..k]) && (actions[k].LedgerAction? ==> actions[k].op.Valid())
    ensures var final, before := ActAll(setup, w, actions), ActAll(setup, w, actions[..k]);
      && OpenedBy(setup, before, actions[k], i, final.ledger.positions[i].signalId)
      && w.control.row.revision <= v <= |final.control.requests|
      && before.control.row == Control.RowAt(final.control, v) && !Control.RowAt(final.control, v).paused
    decreases |actions|
  {
    hide Inv, Control.Inv, Apply, Control.Transition, OpenedBy, Control.Commit;
    RestValid(actions);
    var a, rest := actions[0], actions[1..];
    var next := Act(setup, w, a);
    WorldKeeps(setup, w, actions);
    ActKeeps(setup, w, a);
    LedgerIsRun(setup, next, rest);
    RunExtends(setup, next.ledger, LedgerOps(setup, next, rest));
    if i < |next.ledger.positions| {
      OpensUnpaused(setup, w, a, i);
      OpenedFacts(setup, w, a, i, next.ledger.positions[i].signalId);
      k, v := 0, w.control.row.revision;
      assert actions[..0] == [];
      RowIsAt(w.control, ActAll(setup, w, actions).control);
    } else {
      var j, u := OpenedAtUnpausedRevision(setup, next, rest, i);
      k, v := j + 1, u;
      assert actions[..k] == [a] + rest[..j];
      assert ([a] + rest[..j])[1..] == rest[..j] && ([a] + rest[..j])[0] == a;
      assert actions[k] == rest[j];
    }
  }

  lemma OpenedFacts(setup: Setup, w: World, a: Action, i: nat, signalId: int)
    requires OpenedBy(setup, w, a, i, signalId)
    ensures a.LedgerAction? && !w.control.row.paused && Act(setup, w, a).control == w.control
  {
  }

  lemma ActKeeps(setup: Setup, w: World, a: Action)
    requires setup.Valid() && Control.Inv(w.control) && Inv(setup, w.ledger) && (a.LedgerAction? ==> a.op.Valid())
    ensures Control.Inv(Act(setup, w, a).control) && Inv(setup, Act(setup, w, a).ledger)
    ensures w.control.row.revision <= Act(setup, w, a).control.row.revision
  {
    hide Inv, Apply;
    match a {
      case ControlAction(call, now) => Control.TransitionKeeps(w.control, call, now);
      case LedgerAction(op) => ApplyKeeps(setup, w.ledger, GatedOp(op, w.control));
    }
  }

  /** The row of an earlier store is the row its revision has in any later one. */
  lemma RowIsAt(now: Control.Db, later: Control.Db)
    requires Control.Inv(now) && Control.Inv(later) && now.requests <= later.requests
    ensures now.row.revision <= |later.requests| && now.row == Control.RowAt(later, now.row.revision)
  {
  }

  /** The call commits, and resumes. */
  ghost predicate Resumes(w: World, a: Action) {
    a.ControlAction? && !a.call.paused && Control.Transition(w.control, a.call, a.now).0 != w.control
  }

  ghost predicate NeverResumes(setup: Setup, w: World, actions: seq<Action>)
    requires ActionsValid(actions)
    decreases |actions|
  {
    actions == [] || (
      RestValid(actions);
      !Resumes(w, actions[0]) && NeverResumes(setup, Act(setup, w, actions[0]), actions[1..]))
  }

  /** From a paused store on, nothing opens a position until a resume commits. */
  lemma {:induction false} PausedOpensNothing(setup: Setup, w: World, actions: seq<Action>)
    requires w.control.row.paused && ActionsValid(actions) && NeverResumes(setup, w, actions)
    ensures var after := ActAll(setup, w, actions);
      after.control.row.paused && |after.ledger.positions| == |w.ledger.positions|
    decreases |actions|
  {
    hide Apply;
    if actions != [] {
      RestValid(actions);
      var next := Act(setup, w, actions[0]);
      PositionsNeverVanish(setup, w, actions[0]);
      if |next.ledger.positions| > |w.ledger.positions| {
        OpensUnpaused(setup, w, actions[0], |w.ledger.positions|);
      }
      PausedOpensNothing(setup, next, actions[1..]);
    }
  }

  lemma PositionsNeverVanish(setup: Setup, w: World, a: Action)
    requires a.LedgerAction? ==> a.op.Valid()
    ensures |w.ledger.positions| <= |Act(setup, w, a).ledger.positions|
  {
    hide Apply, Run;
    if a.LedgerAction? {
      var op := GatedOp(a.op, w.control);
      RunOfOne(setup, w.ledger, op);
      RunExtends(setup, w.ledger, [op]);
    }
  }

  /** Between a pause that commits and the next resume that does, no position is opened, whatever is executed. */
  lemma PauseHolds(setup: Setup, w: World, call: Control.Call, now: int, actions: seq<Action>)
    requires call.paused && Control.Transition(w.control, call, now).0 != w.control && ActionsValid(actions)
    requires NeverResumes(setup, Act(setup, w, ControlAction(call, now)), actions)
    ensures var after := ActAll(setup, Act(setup, w, ControlAction(call, now)), actions);
      after.control.row.paused && |after.ledger.positions| == |w.ledger.positions|
  {
    PausedOpensNothing(setup, Act(setup, w, ControlAction(call, now)), actions);
  }

  /** A new database opens no position before its first resume. */
  lemma UnusedOpensNothing(setup: Setup, actions: seq<Action>)
    requires ActionsValid(actions) && NeverResumes(setup, Unused(), actions)
    ensures ActAll(setup, Unused(), actions).ledger.positions == []
  {
    PausedOpensNothing(setup, Unused(), actions);
  }

  // ---- Replays ----

  /**
   * A replay of a successful execution returns the identical result and changes nothing, whatever was executed,
   * marked, settled, paused and resumed in between, and also while paused.
   */
  lemma ReplaysThroughPauses(
    setup: Setup, before: seq<Action>, req: ExecuteRequest, between: seq<Action>, again: ExecuteRequest)
    requires setup.Valid() && ActionsValid(before) && ActionsValid(between)
    requires var w := ActAll(setup, Unused(), before);
      Execute(setup, w.ledger, Gated(req, w.control)).result.Ok? && Bind(setup, again) == Bind(setup, req)
    ensures var w := ActAll(setup, Unused(), before);
      var first := Execute(setup, w.ledger, Gated(req, w.control));
      var later := ActAll(setup, World(w.control, first.state), between);
      Execute(setup, later.ledger, Gated(again, later.control)) == Step(later.ledger, first.result)
  {
    hide Execute, Run;
    var w := ActAll(setup, Unused(), before);
    var first := Execute(setup, w.ledger, Gated(req, w.control));
    var later := ActAll(setup, World(w.control, first.state), between);
    LedgerIsRun(setup, Unused(), before);
    LedgerIsRun(setup, World(w.control, first.state), between);
    BindIgnoresGate(setup, req, w.control);
    BindIgnoresGate(setup, again, later.control);
    ExecuteReplays(setup, LedgerOps(setup, Unused(), before), Gated(req, w.control),
      LedgerOps(setup, World(w.control, first.state), between), Gated(again, later.control));
  }

  lemma BindIgnoresGate(setup: Setup, req: ExecuteRequest, control: Control.Db)
    ensures Bind(setup, Gated(req, control)) == Bind(setup, req)
  {
  }

  /** Money is conserved and the ledger solvent over every run with pauses and resumes. */
  lemma ControlledRunIsSafe(setup: Setup, actions: seq<Action>)
    requires setup.Valid() && ActionsValid(actions)
    ensures var w := ActAll(setup, Unused(), actions);
      && Control.Inv(w.control) && Inv(setup, w.ledger)
  {
    EmptyHolds(setup);
    WorldKeeps(setup, Unused(), actions);
  }

  /** After a first resume an entry does open. */
  lemma ResumedEntryExample() returns (setup: Setup, actions: seq<Action>)
    ensures setup.Valid() && ActionsValid(actions)
    ensures |ActAll(setup, Unused(), actions).ledger.positions| == 1
  {
    var req;
    setup, req := EntryExample();
    var resume := ControlAction(Control.Call(false, "a", "start", "r1", None), 0);
    var enter := LedgerAction(ExecuteOp(req));
    actions := [resume, enter];
    hide Execute;
    var resumed := Act(setup, Unused(), resume);
    assert !resumed.control.row.paused && resumed.ledger == Empty();
    assert Gated(req, resumed.control) == req;
    assert actions[1..] == [enter] && [enter][1..] == [];
    assert ActAll(setup, Unused(), actions) == ActAll(setup, resumed, [enter]);
    assert ActAll(setup, resumed, [enter]) == Act(setup, resumed, enter);
  }
}
