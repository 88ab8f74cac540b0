/** A scheduled settlement pass treats each due position on its own. */
module PaperSchedule {
  import opened Outcomes
  import opened Settlement
  import opened PaperLedger
  import opened PaperInvariant
  import opened PaperRuns

  // ---- Scheduled request ids are distinct ----

  lemma {:induction false} DecimalNonEmpty(n: nat)
    ensures Decimal(n) != "" && Decimal(n)[|Decimal(n)| - 1] == DIGITS[n % 10]
    ensures n < 10 ==> |Decimal(n)| == 1
    ensures n >= 10 ==> |Decimal(n)| >= 2
  {
    if n >= 10 {
      DecimalNonEmpty(n / 10);
    }
  }

  /** Row ids print differently. */
  lemma {:induction false} DecimalInjective(a: nat, b: nat)
    requires Decimal(a) == Decimal(b)
    ensures a == b
    decreases a
  {
    DecimalNonEmpty(a);
    DecimalNonEmpty(b);
    DigitsDiffer(a % 10, b % 10);
    if a >= 10 {
      assert Decimal(a)[..|Decimal(a)| - 1] == Decimal(a / 10);
      assert Decimal(b)[..|Decimal(b)| - 1] == Decimal(b / 10);
      DecimalInjective(a / 10, b / 10);
    }
  }

  lemma DigitsDiffer(i: nat, j: nat)
    requires i < 10 && j < 10 && DIGITS[i] == DIGITS[j]
    ensures i == j
  {
    assert DIGITS == ['0', '1', '2', '3', '4', '5', '6', '7', '8', '9'];
  }

  lemma ScheduledIdsDiffer(setup: Setup, st: State, pass: Pass, i: nat, j: nat)
    requires pass.Valid() && i < |st.positions| && j < |st.positions| && i in pass.fetched && j in pass.fetched && i != j
    ensures SettleRequestId(ScheduledRequest(setup, st, pass, i)) != SettleRequestId(ScheduledRequest(setup, st, pass, j))
  {
    var prefix := "scheduled-settlement:";
    if prefix + Decimal(i) == prefix + Decimal(j) {
      assert (prefix + Decimal(i))[|prefix|..] == Decimal(i);
      assert (prefix + Decimal(j))[|prefix|..] == Decimal(j);
      DecimalInjective(i, j);
    }
  }

  // ---- Independence ----

  /** What settling position i within a pass can touch. */
  lemma SettleDueFrame(setup: Setup, st: State, pass: Pass, i: nat)
    requires pass.Valid() && i < |st.positions|
    ensures var after := SettleDue(setup, st, pass, i).0;
      && |after.positions| == |st.positions|
      && (forall j :: 0 <= j < |st.positions| && j != i ==> after.positions[j] == st.positions[j])
      && (after.settlements == st.settlements
          || (i in pass.fetched
              && |after.settlements| == |st.settlements| + 1 && after.settlements[..|st.settlements|] == st.settlements
              && after.settlements[|st.settlements|].positionId == i
              && after.settlements[|st.settlements|].requestId == SettleRequestId(ScheduledRequest(setup, st, pass, i))))
      && (after.settlements == st.settlements ==> after.positions == st.positions)
      && (SettleDue(setup, st, pass, i).1.ErrorRow? ==> after == st)
  {
    hide SettleRequestId, KeyOf, Derive, Won, SettlementFor, SettlementByRequest, ScheduledRequest, SettlementMatches;
  }

  /** Settling position i leaves the fate of position j as it was. */
  lemma SettleDueIndependent(setup: Setup, st: State, pass: Pass, i: nat, j: nat)
    requires pass.Valid() && i < |st.positions| && j < |st.positions| && i != j
    ensures var after := SettleDue(setup, st, pass, i).0;
      |after.positions| == |st.positions|
      && (SettleDue(setup, after, pass, j).1.SettledRow? <==> SettleDue(setup, st, pass, j).1.SettledRow?)
  {
    hide SettleRequestId, KeyOf, Derive, Won, SettlementFor, SettlementByRequest, Paid;
    var after := SettleDue(setup, st, pass, i).0;
    SettleDueFrame(setup, st, pass, i);
    if j in pass.fetched {
      var req := ScheduledRequest(setup, st, pass, j);
      assert ScheduledRequest(setup, after, pass, j) == req;
      if i in pass.fetched {
        ScheduledIdsDiffer(setup, st, pass, i, j);
      }
      SameLookups(st, after, i, j, SettleRequestId(req));
    }
  }

  lemma SameLookups(st: State, after: State, i: nat, j: nat, rid: string)
    requires i != j
    requires after.settlements == st.settlements
      || (|after.settlements| == |st.settlements| + 1 && after.settlements[..|st.settlements|] == st.settlements
          && after.settlements[|st.settlements|].positionId == i && after.settlements[|st.settlements|].requestId != rid)
    ensures SettlementFor(after.settlements, j) == SettlementFor(st.settlements, j)
    ensures SettlementFor(st.settlements, j).Some? ==>
      after.settlements[SettlementFor(st.settlements, j).value] == st.settlements[SettlementFor(st.settlements, j).value]
    ensures SettlementByRequest(after.settlements, rid).Some? <==> SettlementByRequest(st.settlements, rid).Some?
  {
    hide SettlementFor, SettlementByRequest;
    assert forall k :: 0 <= k < |st.settlements| ==> after.settlements[k] == st.settlements[k];
    var a, b := SettlementFor(after.settlements, j), SettlementFor(st.settlements, j);
    if a.Some? && b.Some? {
      assert !(a.value < b.value) && !(b.value < a.value);
    }
  }

  ghost predicate Distinct(ids: seq<nat>) {
    forall a, b :: 0 <= a < b < |ids| ==> ids[a] != ids[b]
  }

  /** A row of a pass says what settling that position alone, in the pass's initial state, would have done. */
  ghost predicate RowFits(setup: Setup, st: State, pass: Pass, final: State, id: nat, row: PassRow)
    requires pass.Valid()
  {
    && id < |st.positions| == |final.positions|
    && (row.SettledRow? <==> SettleDue(setup, st, pass, id).1.SettledRow?)
    && (if row.SettledRow? then !final.positions[id].open else final.positions[id] == st.positions[id])
  }

  ghost predicate Unsettled(st: State, ids: seq<nat>) {
    forall i :: i in ids ==> i < |st.positions| && SettlementFor(st.settlements, i).None?
  }

  lemma {:induction false} SettleAllIsolated(setup: Setup, st: State, pass: Pass, ids: seq<nat>)
    requires pass.Valid() && Distinct(ids) && Unsettled(st, ids)
    ensures var r := SettleAll(setup, st, pass, ids);
      && |r.0.positions| == |st.positions|
      && (forall k :: 0 <= k < |ids| ==> RowFits(setup, st, pass, r.0, ids[k], r.1[k]))
      && (forall i :: 0 <= i < |st.positions| && i !in ids ==> r.0.positions[i] == st.positions[i])
    decreases |ids|
  {
    hide SettleDue, SettlementFor, SettlementByRequest, ScheduledRequest, SettleRequestId;
    if ids != [] {
      var first, rest := SettleDue(setup, st, pass, ids[0]), ids[1..];
      assert ids[0] in ids && forall i :: i in rest ==> i in ids;
      SettleDueFrame(setup, st, pass, ids[0]);
      SettledCloses(setup, st, pass, ids[0]);
      assert forall k :: 0 <= k < |rest| ==> rest[k] == ids[k + 1];
      StillUnsettled(setup, st, pass, ids[0], rest);
      SettleAllIsolated(setup, first.0, pass, rest);
      var r := SettleAll(setup, st, pass, ids);
      forall k | 0 <= k < |ids| ensures RowFits(setup, st, pass, r.0, ids[k], r.1[k]) {
        if k > 0 {
          assert RowFits(setup, first.0, pass, r.0, rest[k - 1], r.1[k]);
          SettleDueIndependent(setup, st, pass, ids[0], ids[k]);
        }
      }
    }
  }

  lemma StillUnsettled(setup: Setup, st: State, pass: Pass, i: nat, rest: seq<nat>)
    requires pass.Valid() && i < |st.positions| && i !in rest && Unsettled(st, rest)
    ensures Unsettled(SettleDue(setup, st, pass, i).0, rest)
  {
    hide SettleDue, SettlementFor, SettlementByRequest, ScheduledRequest, SettleRequestId;
    SettleDueFrame(setup, st, pass, i);
    var after := SettleDue(setup, st, pass, i).0;
    forall j | j in rest ensures j < |after.positions| && SettlementFor(after.settlements, j).None? {
      assert forall k :: 0 <= k < |st.settlements| ==> after.settlements[k] == st.settlements[k];
    }
  }

  lemma SettledCloses(setup: Setup, st: State, pass: Pass, i: nat)
    requires pass.Valid() && i < |st.positions| && SettlementFor(st.settlements, i).None?
    ensures var r := SettleDue(setup, st, pass, i);
      r.1.SettledRow? ==> |r.0.positions| == |st.positions| && !r.0.positions[i].open
  {
    hide SettleRequestId, KeyOf, Derive, Won, SettlementFor, SettlementByRequest, ScheduledRequest;
  }

  /**
   * One position's failure never affects another: in a pass, a due position is settled exactly when its own
   * settlement would succeed alone; every other position is untouched; and the positions due afterwards are
   * exactly the ones whose row is an error.
   */
  lemma PassIsolatesFailures(setup: Setup, st: State, pass: Pass)
    requires setup.Valid() && Inv(setup, st) && pass.Valid()
    ensures var ids := DueIds(setup, st, pass, |st.positions|); var r := RunDue(setup, st, pass);
      && |r.1| == |ids| && |r.0.positions| == |st.positions|
      && (forall k :: 0 <= k < |ids| ==> RowFits(setup, st, pass, r.0, ids[k], r.1[k]))
      && (forall i :: 0 <= i < |st.positions| && i !in ids ==> r.0.positions[i] == st.positions[i])
      && (forall i :: 0 <= i < |st.positions| ==>
            (i in DueIds(setup, r.0, pass, |r.0.positions|) <==> exists k :: 0 <= k < |ids| && ids[k] == i && r.1[k].ErrorRow?))
  {
    hide SettleDue, SettleAll, SettlementFor, Inv, DueIds, ContractOf;
    var ids := DueIds(setup, st, pass, |st.positions|);
    var r := RunDue(setup, st, pass);
    OpenAreUnsettled(setup, st);
    SettleAllIsolated(setup, st, pass, ids);
    forall i | 0 <= i < |st.positions|
      ensures IsDue(setup, pass, r.0.positions[i]) <==> exists k :: 0 <= k < |ids| && ids[k] == i && r.1[k].ErrorRow?
    {
      if i in ids {
        var k :| 0 <= k < |ids| && ids[k] == i;
        assert RowFits(setup, st, pass, r.0, ids[k], r.1[k]);
        assert forall m :: 0 <= m < |ids| && ids[m] == i ==> m == k;
      }
    }
  }

  lemma OpenAreUnsettled(setup: Setup, st: State)
    requires Inv(setup, st)
    ensures forall i :: 0 <= i < |st.positions| && st.positions[i].open ==> SettlementFor(st.settlements, i).None?
  {
    hide SettlementFor, EntryOk, DecisionOk;
    forall i | 0 <= i < |st.positions| && st.positions[i].open ensures SettlementFor(st.settlements, i).None? {
      forall k | 0 <= k < |st.settlements| ensures st.settlements[k].positionId != i {
        assert SettlementOk(st, st.settlements[k]);
      }
    }
  }
}
