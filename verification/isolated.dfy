/** Every run of the ledger, as a run of the operations of CodexIsolation. */
module LedgerIsolation {
  import opened Options
  import opened HostEvents
  import opened PendingEvents
  import opened CodexIsolation
  import opened Ledger
  import opened LedgerInvariant
  import opened LedgerRefinement
  import opened LedgerRuns

  /** What a snapshot read at the given time does to the queue: add and drop Herdr rows. */
  ghost predicate HerdrOnly(ops: seq<Op>, now: int) {
    forall op :: op in ops ==> op.DropHerdr? || (op.AddHerdr? && op.row.source == Herdr && op.now == now)
  }

  lemma {:induction false} RunJoins(e: Events, a: seq<Op>, b: seq<Op>)
    ensures CodexIsolation.Run(e, a + b) == CodexIsolation.Run(CodexIsolation.Run(e, a), b)
    decreases |a|
  {
    hide Apply;
    if a == [] {
      assert a + b == b;
    } else {
      RunJoins(Apply(e, a[0]), a[1..], b);
      assert (a + b)[1..] == a[1..] + b;
    }
  }

  lemma OneOp(e: Events, op: Op)
    ensures CodexIsolation.Run(e, [op]) == Apply(e, op)
  {
    hide Apply;
    assert [op][1..] == [];
  }

  lemma DropIsDelete(e: Events, ids: set<string>)
    requires forall id :: id in ids ==> id in e.rows && e.rows[id].source == Herdr
    ensures ids <= e.rows.Keys && CodexIsolation.Run(e, [DropHerdr(ids)]) == Delete(e, ids, Discarded)
  {
    assert HerdrAmong(e.rows, ids) == ids;
    OneOp(e, DropHerdr(ids));
  }

  lemma AddIsEnqueue(e: Events, ops: seq<Op>, kept: Events, id: string, row: Row, now: int)
    requires CodexIsolation.Run(e, ops) == kept && HerdrOnly(ops, now) && row.source == Herdr
    ensures CodexIsolation.Run(e, ops + [AddHerdr(id, row, now)]) == EnqueueRow(kept, id, row, now)
    ensures HerdrOnly(ops + [AddHerdr(id, row, now)], now)
  {
    hide EnqueueRow;
    RunJoins(e, ops, [AddHerdr(id, row, now)]);
    OneOp(kept, AddHerdr(id, row, now));
  }

  lemma DropOrNot(e: Events, ids: set<string>, drop: bool, now: int) returns (ops: seq<Op>)
    requires forall id :: id in ids ==> id in e.rows && e.rows[id].source == Herdr
    ensures ids <= e.rows.Keys && HerdrOnly(ops, now)
    ensures CodexIsolation.Run(e, ops) == if drop then Delete(e, ids, Discarded) else e
  {
    DropIsDelete(e, ids);
    ops := if drop then [DropHerdr(ids)] else [];
  }

  lemma ObserveOps(s: State, r: Reading, a: HerdrAgent, id: string) returns (ops: seq<Op>)
    requires CheckedAgent(a) && ValidID(r.sessionId) && r.now != ZERO_TIME
    ensures CodexIsolation.Run(s.events, ops) == Observe(s, r, a, id).events && HerdrOnly(ops, r.now)
  {
    hide CodexIsolation.Run, PaneRow, Decide, FiledAsHerdr, Delete, EnqueueRow, CheckedAgent, HerdrOnly, KindFits, ValidID;
    var d := Decide(Prior(s.panes, r.key, a), a, r.baseline);
    var gone := OfPane(s.events.rows, r.sessionId, a.paneId);
    ops := DropOrNot(s.events, gone, d.purge, r.now);
    if d.send.Some? {
      var kept := if d.purge then Delete(s.events, gone, Discarded) else s.events;
      var row := PaneRow(s.backend, r, a, d.send.value);
      DecideFacts(Prior(s.panes, r.key, a), a, r.baseline);
      PaneRowFacts(s.backend, r, a, d.send.value);
      AddIsEnqueue(s.events, ops, kept, id, row, r.now);
      ops := ops + [AddHerdr(id, row, r.now)];
    }
  }

  lemma HerdrOnlyJoins(a: seq<Op>, b: seq<Op>, now: int)
    requires HerdrOnly(a, now) && HerdrOnly(b, now)
    ensures HerdrOnly(a + b, now)
  {
  }

  lemma {:induction false} ObserveAllOps(s: State, r: Reading, agents: seq<HerdrAgent>, ids: seq<string>) returns (ops: seq<Op>)
    requires |ids| == |agents| && ValidID(r.sessionId) && r.now != ZERO_TIME && forall a :: a in agents ==> CheckedAgent(a)
    ensures CodexIsolation.Run(s.events, ops) == ObserveAll(s, r, agents, ids).events && HerdrOnly(ops, r.now)
    decreases |agents|
  {
    hide CodexIsolation.Run, Observe, CheckedAgent, HerdrOnly, ValidID;
    if agents == [] {
      ops := DropOrNot(s.events, {}, false, r.now);
    } else {
      var n := |agents| - 1;
      var u := ObserveAll(s, r, agents[..n], ids[..n]);
      ops := ObserveAllOps(s, r, agents[..n], ids[..n]);
      var more := ObserveOps(u, r, agents[n], ids[n]);
      RunJoins(s.events, ops, more);
      HerdrOnlyJoins(ops, more, r.now);
      ops := ops + more;
    }
  }

  /** A reconciliation only adds and drops Herdr rows. */
  lemma SnapshotOps(s: State, r: Reading, agents: seq<HerdrAgent>, ids: seq<string>) returns (ops: seq<Op>)
    requires |ids| == |agents| && ValidID(r.sessionId) && r.now != ZERO_TIME && forall a :: a in agents ==> CheckedAgent(a)
    ensures CodexIsolation.Run(s.events, ops) == Reconcile(s, r, agents, ids).events && HerdrOnly(ops, r.now)
  {
    hide CodexIsolation.Run, ObserveAll, CheckedAgent, HerdrOnly, ValidID, Delete;
    if Listening(s, r.key) {
      var previous := s.bindings[r.key].incarnation;
      ops := DropOrNot(s.events, OfSession(s.events.rows, r.sessionId), r.incarnation != previous && previous != "", r.now);
      var u := Rebase(s, r);
      var seen := ObserveAllOps(u, Baselined(s, r), agents, ids);
      var v := ObserveAll(u, Baselined(s, r), agents, ids);
      var swept := DropOrNot(v.events, OfPanes(v.events.rows, r.sessionId, Removed(v.panes, r.key, agents)), true, r.now);
      RunJoins(s.events, ops, seen);
      HerdrOnlyJoins(ops, seen, r.now);
      RunJoins(s.events, ops + seen, swept);
      HerdrOnlyJoins(ops + seen, swept, r.now);
      ops := ops + seen + swept;
    } else {
      ops := DropOrNot(s.events, {}, false, r.now);
    }
  }

  lemma {:induction false} HerdrOnlyAddsNoCodex(e: Events, ops: seq<Op>, now: int, j: string)
    requires HerdrOnly(ops, now) && UniqueRowids(e.rows) && Caps(e.rows)
    ensures Live(CodexIsolation.Run(e, ops).rows, now, j) ==> Live(e.rows, now, j)
    decreases |ops|
  {
    hide Caps, UniqueRowids;
    if ops != [] {
      assert ops[0] in ops;
      OneHerdrOp(e, ops[0], now, j);
      HerdrOnlyAddsNoCodex(Apply(e, ops[0]), ops[1..], now, j);
    }
  }

  lemma OneHerdrOp(e: Events, op: Op, now: int, j: string)
    requires op.DropHerdr? || (op.AddHerdr? && op.row.source == Herdr && op.now == now)
    requires UniqueRowids(e.rows) && Caps(e.rows)
    ensures UniqueRowids(Apply(e, op).rows) && Caps(Apply(e, op).rows)
    ensures Live(Apply(e, op).rows, now, j) ==> Live(e.rows, now, j)
  {
    ApplyIsSound(e, op);
    if op.AddHerdr? {
      EnqueueKeepsCaps(e, op.id, op.row, now);
    }
  }

  // --- Erasing Herdr from a run ---

  /** The steps by which Herdr events enter the queue. */
  predicate IsHerdr(step: Step) { step.Snapshot? || (step.Receive? && FiledAsHerdr(step.body)) }

  function StepTime(now: int, step: Step): int {
    match step
    case Receive(_, _, t) => t
    case Expire(t) => t
    case Snapshot(r, _, _) => r.now
    case _ => now
  }

  function Erased(steps: seq<Step>): seq<Step> {
    if steps == [] then [] else (if IsHerdr(steps[0]) then [] else [steps[0]]) + Erased(steps[1..])
  }

  function TimeAfter(now: int, steps: seq<Step>): int
    decreases |steps|
  {
    if steps == [] then now else TimeAfter(StepTime(now, steps[0]), steps[1..])
  }

  /** Legal steps under a clock that never goes back; the ids drawn for Herdr events are fresh, and a
      Codex event finds its id free on both sides. */
  ghost predicate Paired(s: State, t: State, now: int, steps: seq<Step>)
    decreases |steps|
  {
    steps == [] ||
    var step, later := steps[0], StepTime(now, steps[0]);
    && Legal(s, step) && now <= later
    && (step.Snapshot? ==> FreshIds(s.events.rows, step.ids))
    && (step.Receive? && IsHerdr(step) ==> step.id !in s.events.rows)
    && (step.Receive? && !IsHerdr(step) ==> Free(s.events.rows, later, step.id) && Free(t.events.rows, later, step.id))
    && Paired(LedgerRuns.Next(s, step), if IsHerdr(step) then t else LedgerRuns.Next(t, step), later, steps[1..])
  }

  ghost predicate SameOutside(s: State, t: State, now: int) {
    && SameCodex(s.events.rows, t.events.rows, now) && s.backend == t.backend
    && CodexIsolation.Sound(s.events) && CodexIsolation.Sound(t.events)
  }

  lemma SnapshotKeepsSame(s: State, t: State, step: Step)
    requires Inv(s) && Legal(s, step) && step.Snapshot? && FreshIds(s.events.rows, step.ids)
    requires SameOutside(s, t, step.r.now)
    ensures SameCodex(LedgerRuns.Next(s, step).events.rows, t.events.rows, step.r.now)
    ensures LedgerRuns.Next(s, step).backend == s.backend
  {
    hide Reconcile, SameCodex, CodexIsolation.Run, CheckedAgent, FreshIds;
    var r, u := step.r, LedgerRuns.Next(s, step);
    if r.key in s.bindings {
      SessionIsID(s, r);
      var ops := SnapshotOps(s, r, step.agents, step.ids);
      forall j ensures Live(u.events.rows, r.now, j) <==> Live(s.events.rows, r.now, j)
        ensures Live(s.events.rows, r.now, j) ==> u.events.rows[j] == s.events.rows[j]
      {
        ReconcileKeepsCodex(s, r, step.agents, step.ids, j);
        HerdrOnlyAddsNoCodex(s.events, ops, r.now, j);
      }
      SameCodexVia(s.events.rows, u.events.rows, t.events.rows, r.now);
    } else {
      UnknownBinding(s, r, step.agents, step.ids);
    }
    ReconcileKeepsListening(s, r, step.agents, step.ids);
  }

  lemma SessionIsID(s: State, r: Reading)
    requires Inv(s) && ReadFrom(r, s)
    ensures ValidID(r.sessionId) && r.now != ZERO_TIME
  {
  }

  lemma ReceiveKeepsSame(s: State, t: State, step: Step)
    requires step.Receive? && SameOutside(s, t, step.now)
    requires IsHerdr(step) ==> step.id !in s.events.rows
    requires !IsHerdr(step) ==> Free(s.events.rows, step.now, step.id) && Free(t.events.rows, step.now, step.id)
    ensures SameCodex(LedgerRuns.Next(s, step).events.rows,
                      (if IsHerdr(step) then t else LedgerRuns.Next(t, step)).events.rows, step.now)
  {
    hide SameCodex, FiledAsHerdr, EnqueueRow, Caps, UniqueRowids;
    var row := NewRow(step.body, step.now, CurrentBackend(s.backend), External);
    if IsHerdr(step) {
      var u := EnqueueRow(s.events, step.id, row, step.now);
      forall j ensures Live(u.rows, step.now, j) <==> Live(s.events.rows, step.now, j)
        ensures Live(s.events.rows, step.now, j) ==> u.rows[j] == s.events.rows[j]
      {
        HerdrKeepsCodex(s.events, step.id, row, step.now, j);
      }
      SameCodexVia(s.events.rows, u.rows, t.events.rows, step.now);
    } else {
      CodexAddedTogether(s.events, t.events, step.id, row, step.now);
    }
  }

  lemma OtherStepKeepsSame(s: State, t: State, step: Step, now: int)
    requires !step.Snapshot? && !step.Receive? && SameOutside(s, t, now) && StepTime(now, step) == now
    ensures SameCodex(LedgerRuns.Next(s, step).events.rows, LedgerRuns.Next(t, step).events.rows, now)
  {
    hide SameCodex, Caps, UniqueRowids, Delete;
    var e, f := s.events, t.events;
    match step
    case Capture(enabled) =>
      if !enabled {
        CaptureOff(e, f, now);
      }
    case Expire(_) => OtherOpsKeepSame(e, f, Tick(now), now);
    case Finish(id, fate) => OtherOpsKeepSame(e, f, Complete(id, fate), now);
    case Reschedule(id, attempts, next) => OtherOpsKeepSame(e, f, Retry(id, attempts, next), now);
    case Configure(endpoint) =>
      OtherOpsKeepSame(e, f, AssignBackend(if s.backend.Some? then s.backend.value else endpoint), now);
    case Wipe => OtherOpsKeepSame(e, f, Clear, now);
    case _ =>
  }

  lemma CaptureOff(e: Events, f: Events, now: int)
    requires SameCodex(e.rows, f.rows, now)
    ensures SameCodex(Delete(e, HerdrRows(e.rows), Discarded).rows, Delete(f, HerdrRows(f.rows), Discarded).rows, now)
  {
    DeletedTogether(e, f, HerdrRows(e.rows), HerdrRows(f.rows), Discarded, now);
  }

  lemma StepKeepsSound(s: State, step: Step)
    requires CodexIsolation.Sound(s.events) && !step.Snapshot?
    ensures CodexIsolation.Sound(LedgerRuns.Next(s, step).events)
  {
    hide CodexIsolation.Sound, EnqueueRow, FiledAsHerdr, Delete, CodexIsolation.Run;
    var e := s.events;
    match step
    case Capture(_) =>
      DropIsDelete(e, HerdrRows(e.rows));
      OneOp(e, DropHerdr(HerdrRows(e.rows)));
      ApplyIsSound(e, DropHerdr(HerdrRows(e.rows)));
    case Receive(id, body, now) =>
      ApplyIsSound(e, AddCodex(id, NewRow(body, now, CurrentBackend(s.backend), External), now));
    case Expire(now) => ApplyIsSound(e, Tick(now));
    case Finish(id, fate) => ApplyIsSound(e, Complete(id, fate));
    case Reschedule(id, attempts, next) => ApplyIsSound(e, Retry(id, attempts, next));
    case Configure(endpoint) => ApplyIsSound(e, AssignBackend(if s.backend.Some? then s.backend.value else endpoint));
    case Wipe => ApplyIsSound(e, Clear);
    case _ =>
  }

  lemma SameBackend(s: State, t: State, step: Step)
    requires s.backend == t.backend && !step.Snapshot?
    ensures LedgerRuns.Next(s, step).backend == LedgerRuns.Next(t, step).backend
    ensures step.Receive? ==> LedgerRuns.Next(s, step).backend == s.backend
  {
    hide EnqueueRow, Delete;
  }

  lemma InvIsSound(s: State)
    requires Inv(s)
    ensures CodexIsolation.Sound(s.events)
  {
  }

  lemma OneStepKeepsSame(s: State, t: State, step: Step, now: int)
    requires Inv(s) && SameOutside(s, t, now) && Paired(s, t, now, [step])
    ensures var u := LedgerRuns.Next(s, step);
      Inv(u) && SameOutside(u, if IsHerdr(step) then t else LedgerRuns.Next(t, step), StepTime(now, step))
  {
    hide Inv, Legal, LedgerRuns.Next, SameCodex, CodexIsolation.Sound, FreshIds, Free;
    var later := StepTime(now, step);
    NextKeepsInv(s, step);
    InvIsSound(LedgerRuns.Next(s, step));
    SameCodexLater(s.events.rows, t.events.rows, now, later);
    if step.Snapshot? {
      SnapshotKeepsSame(s, t, step);
    } else {
      SameBackend(s, t, step);
      StepKeepsSound(t, step);
      if step.Receive? {
        ReceiveKeepsSame(s, t, step);
      } else {
        OtherStepKeepsSame(s, t, step, later);
      }
    }
  }

  /** Over any run of the queue and the ledger, the unexpired Codex rows, their attempts and their order
      are those of the run with every snapshot and every other Herdr event erased. */
  lemma {:induction false} HerdrIsInvisibleToCodex(s: State, t: State, now: int, steps: seq<Step>)
    requires Inv(s) && SameOutside(s, t, now) && Paired(s, t, now, steps)
    ensures SameCodex(Play(s, steps).events.rows, Play(t, Erased(steps)).events.rows, TimeAfter(now, steps))
    decreases |steps|
  {
    hide Inv, Legal, LedgerRuns.Next, SameCodex, CodexIsolation.Sound, FreshIds, Free, IsHerdr;
    if steps != [] {
      var step, rest := steps[0], steps[1..];
      assert Paired(s, t, now, [step]) by { FirstPaired(s, t, now, steps); }
      OneStepKeepsSame(s, t, step, now);
      var u := if IsHerdr(step) then t else LedgerRuns.Next(t, step);
      HerdrIsInvisibleToCodex(LedgerRuns.Next(s, step), u, StepTime(now, step), rest);
      if IsHerdr(step) {
        assert Erased(steps) == Erased(rest);
      } else {
        assert Erased(steps)[0] == step && Erased(steps)[1..] == Erased(rest);
      }
    }
  }

  lemma FirstPaired(s: State, t: State, now: int, steps: seq<Step>)
    requires steps != [] && Paired(s, t, now, steps)
    ensures Paired(s, t, now, [steps[0]])
  {
    hide Legal, LedgerRuns.Next, FreshIds, Free;
    assert [steps[0]][1..] == [];
  }
}
