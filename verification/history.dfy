/** What two points of a run have to do with each other. */
module LedgerHistory {
  import opened Options
  import opened HerdrMetadata
  import opened HostEvents
  import opened PendingEvents
  import opened Dequeue
  import opened CodexIsolation
  import opened Ledger
  import opened LedgerInvariant
  import opened LedgerRefinement
  import opened LedgerRuns

  // --- Session ids ---

  lemma StepKeepsSession(s: State, step: Step, key: string)
    requires key in s.bindings
    ensures var u := LedgerRuns.Next(s, step).bindings;
      key in u && u[key].sessionId == s.bindings[key].sessionId
  {
    hide ObserveAll, EnqueueRow, Delete;
    if step.Snapshot? && |step.ids| == |step.agents| {
      ReconcileKeepsListening(s, step.r, step.agents, step.ids);
    }
  }

  /** A binding once made stays, under one session id, across any disable and enable. */
  lemma {:induction false} SessionIdsStay(states: seq<State>, steps: seq<Step>, i: nat, j: nat, key: string)
    requires LedgerRuns.Run(states, steps) && i <= j <= |steps| && |states| == |steps| + 1 && key in states[i].bindings
    ensures key in states[j].bindings && states[j].bindings[key].sessionId == states[i].bindings[key].sessionId
    decreases j
  {
    hide LedgerRuns.Run, LedgerRuns.Next, Legal;
    if i < j {
      SessionIdsStay(states, steps, i, j - 1, key);
      RunStep(states, steps, j - 1);
      StepKeepsSession(states[j - 1], steps[j - 1], key);
    }
  }

  // --- What is sent, from consecutive snapshots ---

  /** What a snapshot sends after the previous one of its binding, none if it is the first. */
  function SentBetween(previous: seq<HerdrAgent>, agents: seq<HerdrAgent>): seq<Option<EventType>> {
    seq(|agents|, i requires 0 <= i < |agents| =>
      var last := LastOf(previous, agents[i].paneId);
      Decide(if last.Some? then Some(PaneOf(last.value)) else None, agents[i], false).send)
  }

  lemma PureIsBetween(panes: Panes, snaps: Snapshots, key: string, agents: seq<HerdrAgent>)
    requires Mirrors(panes, snaps)
    ensures PureEmissions(panes, key, agents, false) == SentBetween(if key in snaps then snaps[key] else [], agents)
  {
    hide Decide;
    forall a | a in agents
      ensures Prior(panes, key, a) ==
        var last := LastOf(if key in snaps then snaps[key] else [], a.paneId);
        if last.Some? then Some(PaneOf(last.value)) else None
    {
      MirroredAt(panes, snaps, PaneKey(key, a.paneId));
    }
    assert forall i :: 0 <= i < |agents| ==> agents[i] in agents;
  }

  lemma MirroredAt(panes: Panes, snaps: Snapshots, k: PaneKey)
    requires Mirrors(panes, snaps)
    ensures k in panes <==> k.binding in snaps && LastOf(snaps[k.binding], k.pane).Some?
    ensures k in panes ==> panes[k] == PaneOf(LastOf(snaps[k.binding], k.pane).value)
  {
  }

  /** In any run, a snapshot of distinct panes inserts exactly the events that the previous snapshot of its
      binding and itself determine; none at a baseline or in a new incarnation, or without consent. */
  lemma RunsEmitBetween(states: seq<State>, steps: seq<Step>, n: nat)
    requires LedgerRuns.Run(states, steps) && |states| == |steps| + 1 && states[0].panes == map[] && n < |steps|
    requires steps[n].Snapshot? && DistinctPanes(steps[n].agents) && FreshIds(states[n].events.rows, steps[n].ids)
    ensures var r := steps[n].r; var agents := steps[n].agents;
      var snaps := SnapshotsAfter(states[..n + 1], steps[..n]);
      var previous := if r.key in snaps then snaps[r.key] else [];
      |states[n + 1].events.fates| == |states[n].events.fates| +
        if !Listening(states[n], r.key) || r.baseline || r.incarnation != states[n].bindings[r.key].incarnation then 0
        else Count(SentBetween(previous, agents))
  {
    hide LedgerRuns.Run, Mirrors, DistinctPanes, Reconcile, SnapshotsAfter, SentBetween, FreshIds;
    var s, r, agents, ids := states[n], steps[n].r, steps[n].agents, steps[n].ids;
    RunStep(states, steps, n);
    RunPrefix(states, steps, n);
    LedgerMirrorsSnapshots(states[..n + 1], steps[..n]);
    PureIsBetween(s.panes, SnapshotsAfter(states[..n + 1], steps[..n]), r.key, agents);
    if r.key in s.bindings {
      ReconcileEmits(s, r, agents, ids);
      if r.baseline || r.incarnation != s.bindings[r.key].incarnation {
        NoneSent(Sends(s, r, agents));
      }
    } else {
      UnknownBinding(s, r, agents, ids);
    }
  }

  // --- Episodes of one pane ---

  /** The event sent for a pane at a step, if any. */
  function SentFor(s: State, step: Step, k: PaneKey): Option<EventType> {
    if !step.Snapshot? || step.r.key != k.binding || !Listening(s, k.binding) || LastOf(step.agents, k.pane).None? then None
    else
      var a := LastOf(step.agents, k.pane).value;
      Decide(Prior(s.panes, k.binding, a), a, Baselined(s, step.r).baseline).send
  }

  /** Between the two points the pane stays in the ledger, in one terminal, and its sequence does not fall. */
  ghost predicate Undisturbed(states: seq<State>, i: nat, j: nat, k: PaneKey)
    requires i <= j < |states|
  {
    && (forall m :: i <= m <= j ==> k in states[m].panes)
    && forall m, n :: i <= m < j && n == m + 1 ==>
         && states[n].panes[k].terminal == states[m].panes[k].terminal
         && states[m].panes[k].sequence <= states[n].panes[k].sequence
  }

  lemma {:induction false} SequencesNeverFall(states: seq<State>, i: nat, j: nat, k: PaneKey)
    requires i <= j < |states| && Undisturbed(states, i, j, k)
    ensures states[i].panes[k].sequence <= states[j].panes[k].sequence
    decreases j
  {
    if i < j {
      SequencesNeverFall(states, i, j - 1, k);
      assert states[j - 1].panes[k].sequence <= states[j].panes[k].sequence;
    }
  }

  /** The ledger holds the agent that a sent event is about. */
  lemma SentIsStored(s: State, step: Step, k: PaneKey)
    requires SentFor(s, step, k).Some? && |step.ids| == |step.agents|
    ensures var a := LastOf(step.agents, k.pane).value;
      && k in LedgerRuns.Next(s, step).panes && LedgerRuns.Next(s, step).panes[k] == PaneOf(a)
      && k in s.panes && s.panes[k].sequence < a.sequence
      && (SentFor(s, step, k) == Some(AttentionRequired) ==> a.status == Blocked && s.panes[k].status != Blocked)
  {
    hide Decide, Reconcile;
    var a := LastOf(step.agents, k.pane).value;
    LastOfIsOfPane(step.agents, k.pane);
    LedgerIsSnapshot(s, step.r, step.agents, step.ids, k);
    DecideFacts(Prior(s.panes, k.binding, a), a, Baselined(s, step.r).baseline);
    DecideSends(Prior(s.panes, k.binding, a), a, Baselined(s, step.r).baseline);
  }

  lemma DecideSends(prior: Option<Pane>, a: HerdrAgent, baseline: bool)
    ensures Decide(prior, a, baseline).send in {None, Some(AttentionRequired), Some(ProgressUpdated)}
  {
  }

  lemma {:induction false} LastOfIsOfPane(agents: seq<HerdrAgent>, pane: string)
    ensures LastOf(agents, pane).Some? ==> LastOf(agents, pane).value.paneId == pane
  {
    if agents != [] && agents[|agents| - 1].paneId != pane {
      LastOfIsOfPane(agents[..|agents| - 1], pane);
    }
  }

  /** In any run, while a pane is not re-baselined its events carry strictly increasing sequences, and
      between two attention events the ledger holds an observation of it that is not blocked. */
  lemma EpisodesAreSeparate(states: seq<State>, steps: seq<Step>, i: nat, j: nat, k: PaneKey)
    requires LedgerRuns.Run(states, steps) && |states| == |steps| + 1 && i < j < |steps|
    requires SentFor(states[i], steps[i], k).Some? && SentFor(states[j], steps[j], k).Some?
    requires Undisturbed(states, i + 1, j, k)
    ensures LastOf(steps[i].agents, k.pane).value.sequence < LastOf(steps[j].agents, k.pane).value.sequence
    ensures SentFor(states[i], steps[i], k) == SentFor(states[j], steps[j], k) == Some(AttentionRequired) ==>
      i + 1 < j && exists m :: i + 1 < m <= j && k in states[m].panes && states[m].panes[k].status != Blocked
  {
    hide LedgerRuns.Run, SentFor, LedgerRuns.Next, LastOf;
    RunStep(states, steps, i);
    RunStep(states, steps, j);
    SentIsOfSnapshot(states[i], steps[i], k);
    SentIsOfSnapshot(states[j], steps[j], k);
    SentIsStored(states[i], steps[i], k);
    SentIsStored(states[j], steps[j], k);
    SequencesNeverFall(states, i + 1, j, k);
  }

  lemma SentIsOfSnapshot(s: State, step: Step, k: PaneKey)
    requires SentFor(s, step, k).Some? && Legal(s, step)
    ensures step.Snapshot? && |step.ids| == |step.agents| && LastOf(step.agents, k.pane).Some?
  {
  }

  // --- A lost request ---

  /** Two Codex events under one id, the second when the first has expired and nothing in between: from the
      empty database the second is lost, so the condition on free ids is one a run can violate. */
  lemma RepeatedRequestIsLost(id: string, first: Body, second: Body, now: int, later: int)
    requires !FiledAsHerdr(first) && !FiledAsHerdr(second) && later >= now + CODEX_LIFETIME
    ensures var a, b := Receive(id, first, now), Receive(id, second, later);
      var s := LedgerRuns.Next(EMPTY, a);
      && LedgerRuns.Run([EMPTY, s, LedgerRuns.Next(s, b)], [a, b])
      && id in s.events.rows && !Free(s.events.rows, later, id)
      && id !in LedgerRuns.Next(s, b).events.rows
  {
    hide LedgerRuns.Next, LedgerRuns.Run, FiledAsHerdr, Free, Inv;
    var a, b := Receive(id, first, now), Receive(id, second, later);
    var s := LedgerRuns.Next(EMPTY, a);
    FirstRequest(id, first, now);
    ReceiveIsLegal(EMPTY, id, first, now);
    ReceiveIsLegal(s, id, second, later);
    RunOfTwo(a, b);
    ExpiredIdIsLost(s, id, second, later);
  }

  lemma ReceiveIsLegal(s: State, id: string, body: Body, now: int)
    requires !FiledAsHerdr(body)
    ensures Legal(s, Receive(id, body, now))
  {
    hide FiledAsHerdr;
  }

  lemma RunOfTwo(a: Step, b: Step)
    requires Legal(EMPTY, a) && Legal(LedgerRuns.Next(EMPTY, a), b)
    ensures var s := LedgerRuns.Next(EMPTY, a); LedgerRuns.Run([EMPTY, s, LedgerRuns.Next(s, b)], [a, b])
  {
    hide LedgerRuns.Next, Legal;
  }

  lemma FirstRequest(id: string, body: Body, now: int)
    requires !FiledAsHerdr(body)
    ensures var rows := LedgerRuns.Next(EMPTY, Receive(id, body, now)).events.rows;
      id in rows && rows[id].source == Codex && rows[id].expires == now + CODEX_LIFETIME
  {
    hide FiledAsHerdr, Passes, EnqueueRow;
    StartIsSound();
    var row := NewRow(body, now, "", External);
    EnqueuedCodexIsPendingIfFree(EMPTY.events, id, row, now);
    EnqueueKeepsCaps(EMPTY.events, id, row, now);
  }

  lemma ExpiredIdIsLost(s: State, id: string, body: Body, now: int)
    requires id in s.events.rows && s.events.rows[id].expires <= now && !FiledAsHerdr(body)
    ensures id !in LedgerRuns.Next(s, Receive(id, body, now)).events.rows
    ensures !Free(s.events.rows, now, id)
  {
    hide FiledAsHerdr;
  }

  // --- Waiting through other transactions ---

  /** The step leaves row x as it is, and neither turns the clock back behind its creation nor makes
      another row due by the horizon that was not. */
  ghost predicate Bystander(s: State, step: Step, x: string, horizon: int)
    requires x in s.events.rows
  {
    && Legal(s, step)
    && x in LedgerRuns.Next(s, step).events.rows && LedgerRuns.Next(s, step).events.rows[x] == s.events.rows[x]
    && match step
       case Receive(_, _, now) => s.events.rows[x].created <= now
       case Snapshot(r, _, ids) => s.events.rows[x].created <= r.now && FreshIds(s.events.rows, ids)
       case Reschedule(id, _, next) =>
         id != x && id in s.events.rows ==> s.events.rows[id].nextAttempt <= horizon || next > horizon
       case _ => true
  }

  lemma ObserveIsFair(s: State, r: Reading, a: HerdrAgent, id: string, x: string, horizon: int)
    requires UniqueRowids(s.events.rows) && Caps(s.events.rows) && id !in s.events.rows && x in s.events.rows
    requires s.events.rows[x].created <= r.now && x in Observe(s, r, a, id).events.rows
    ensures Meanwhile(s.events.rows, Observe(s, r, a, id).events.rows, x, horizon)
  {
    hide PaneRow, Decide, EnqueueRow, Meanwhile, Caps, UniqueRowids;
    var d := Decide(Prior(s.panes, r.key, a), a, r.baseline);
    var gone := OfPane(s.events.rows, r.sessionId, a.paneId);
    var kept := if d.purge then Delete(s.events, gone, Discarded) else s.events;
    KeptIsPart(s.events, gone, kept, d.purge);
    PartKeepsCaps(kept.rows, s.events.rows);
    ObserveAddsOnly(s, r, a, id);
    if d.purge {
      if x !in gone {
        DeleteIsFair(s.events, gone, Discarded, x, horizon);
      } else if d.send.Some? {
        EnqueueAddsOnly(kept, id, PaneRow(s.backend, r, a, d.send.value), r.now);
      }
    } else {
      NothingMeanwhile(s.events.rows, x, horizon);
    }
    if d.send.Some? {
      var row := PaneRow(s.backend, r, a, d.send.value);
      PaneRowIsNow(s.backend, r, a, d.send.value);
      EnqueueIsFair(kept, id, row, r.now, x, horizon);
      MeanwhileJoins(s.events.rows, kept.rows, EnqueueRow(kept, id, row, r.now).rows, x, horizon);
    }
  }

  lemma KeptIsPart(e: Events, gone: set<string>, kept: Events, purge: bool)
    requires gone <= e.rows.Keys && kept == if purge then Delete(e, gone, Discarded) else e
    ensures PartOf(kept.rows, e.rows)
  {
  }

  lemma PaneRowIsNow(backend: Option<string>, r: Reading, a: HerdrAgent, kind: EventType)
    ensures PaneRow(backend, r, a, kind).created == r.now
  {
    hide PaneEvent, FiledAsHerdr;
  }

  lemma {:induction false} ObserveAllIsFair(s: State, r: Reading, agents: seq<HerdrAgent>, ids: seq<string>,
    x: string, horizon: int)
    requires |ids| == |agents| && Inv(s) && ReadFrom(r, s) && (forall a :: a in agents ==> CheckedAgent(a))
    requires s.bindings[r.key].enabled && s.bindings[r.key].incarnation == r.incarnation
    requires FreshIds(s.events.rows, ids) && x in s.events.rows && s.events.rows[x].created <= r.now
    requires x in ObserveAll(s, r, agents, ids).events.rows
    ensures Meanwhile(s.events.rows, ObserveAll(s, r, agents, ids).events.rows, x, horizon)
  {
    hide Observe, Inv, Emissions, CheckedAgent, Meanwhile, ReadFrom, InsertedAs;
    if agents == [] {
      NothingMeanwhile(s.events.rows, x, horizon);
    } else {
      var n := |agents| - 1;
      var u := ObserveAll(s, r, agents[..n], ids[..n]);
      ObserveAllKeepsInv(s, r, agents[..n], ids[..n]);
      EmissionsAreInserted(s, r, agents[..n], ids[..n]);
      assert ids[n] !in ids[..n];
      ObserveAddsOnly(u, r, agents[n], ids[n]);
      assert x != ids[n];
      ObserveAllIsFair(s, r, agents[..n], ids[..n], x, horizon);
      SameRowMeanwhile(s.events.rows, u.events.rows, x, horizon);
      InvIsCapped(u);
      ObserveIsFair(u, r, agents[n], ids[n], x, horizon);
      MeanwhileJoins(s.events.rows, u.events.rows, ObserveAll(s, r, agents, ids).events.rows, x, horizon);
    }
  }

  lemma SameRowMeanwhile(t: Table, u: Table, x: string, horizon: int)
    requires Meanwhile(t, u, x, horizon)
    ensures x in t && x in u && u[x] == t[x]
  {
  }

  lemma InvIsCapped(s: State)
    requires Inv(s)
    ensures UniqueRowids(s.events.rows) && Caps(s.events.rows)
  {
  }

  lemma DeletedIsFair(s: State, u: State, ids: set<string>, x: string, horizon: int)
    requires ids <= s.events.rows.Keys && u.events.rows == s.events.rows - ids && x in u.events.rows
    ensures Meanwhile(s.events.rows, u.events.rows, x, horizon)
  {
    DeleteIsFair(s.events, ids, Discarded, x, horizon);
  }

  lemma RebaseAndSweepAreFair(s: State, r: Reading, agents: seq<HerdrAgent>, x: string, horizon: int)
    requires r.key in s.bindings
    ensures x in Rebase(s, r).events.rows ==> Meanwhile(s.events.rows, Rebase(s, r).events.rows, x, horizon)
    ensures x in Sweep(s, r, agents).events.rows ==> Meanwhile(s.events.rows, Sweep(s, r, agents).events.rows, x, horizon)
  {
    hide Meanwhile;
    var session, removed := OfSession(s.events.rows, r.sessionId), Removed(s.panes, r.key, agents);
    if x in Rebase(s, r).events.rows {
      if Rebase(s, r).events == s.events {
        NothingMeanwhile(s.events.rows, x, horizon);
      } else {
        DeletedIsFair(s, Rebase(s, r), session, x, horizon);
      }
    }
    if x in Sweep(s, r, agents).events.rows {
      DeletedIsFair(s, Sweep(s, r, agents), OfPanes(s.events.rows, r.sessionId, removed), x, horizon);
    }
  }

  lemma SnapshotIsFair(s: State, step: Step, x: string, horizon: int)
    requires Inv(s) && step.Snapshot? && x in s.events.rows && Bystander(s, step, x, horizon)
    ensures Meanwhile(s.events.rows, LedgerRuns.Next(s, step).events.rows, x, horizon)
  {
    hide Inv, Meanwhile, ObserveAll, Rebase, Sweep, CheckedAgent, FreshIds;
    var r, agents, ids := step.r, step.agents, step.ids;
    if !Listening(s, r.key) {
      NothingMeanwhile(s.events.rows, x, horizon);
    } else {
      var u, r' := Rebase(s, r), Baselined(s, r);
      var v := ObserveAll(u, r', agents, ids);
      RebaseKeepsInv(s, r);
      RebaseOnlyRemoves(s, r, agents);
      ReconcileKeepsBinding(s, r, agents, ids);
      RebaseOnlyRemoves(v, r, agents);
      StillFresh(u.events.rows, s.events.rows, ids);
      ThereBefore(u, r', agents, ids, s.events.rows, x);
      RebaseAndSweepAreFair(s, r, agents, x, horizon);
      ObserveAllIsFair(u, r', agents, ids, x, horizon);
      RebaseAndSweepAreFair(v, r, agents, x, horizon);
      MeanwhileJoins(s.events.rows, u.events.rows, v.events.rows, x, horizon);
      MeanwhileJoins(s.events.rows, v.events.rows, Sweep(v, r, agents).events.rows, x, horizon);
    }
  }

  lemma StillFresh(t: Table, u: Table, ids: seq<string>)
    requires PartOf(t, u) && FreshIds(u, ids)
    ensures FreshIds(t, ids)
  {
  }

  /** A row of the result whose id is not fresh was there before. */
  lemma ThereBefore(s: State, r: Reading, agents: seq<HerdrAgent>, ids: seq<string>, t: Table, x: string)
    requires |ids| == |agents| && FreshIds(t, ids) && PartOf(s.events.rows, t) && x in t
    requires FreshIds(s.events.rows, ids) && x in ObserveAll(s, r, agents, ids).events.rows
    ensures x in s.events.rows && s.events.rows[x] == t[x]
  {
    EmissionsAreInserted(s, r, agents, ids);
  }

  /** No transaction puts a row before a waiting one: not a hook event, a snapshot, a switch of backend, a
      change of consent, nor the settling or putting off of another row. */
  lemma StepsAreFair(s: State, step: Step, x: string, horizon: int)
    requires Inv(s) && x in s.events.rows && s.events.rows[x].backend != "" && Bystander(s, step, x, horizon)
    ensures Meanwhile(s.events.rows, LedgerRuns.Next(s, step).events.rows, x, horizon)
  {
    if step.Snapshot? {
      hide Inv, Bystander, Meanwhile;
      SnapshotIsFair(s, step, x, horizon);
    } else {
      OtherStepsAreFair(s, step, x, horizon);
    }
  }

  lemma OtherStepsAreFair(s: State, step: Step, x: string, horizon: int)
    requires Inv(s) && x in s.events.rows && s.events.rows[x].backend != "" && Bystander(s, step, x, horizon)
    requires !step.Snapshot?
    ensures Meanwhile(s.events.rows, LedgerRuns.Next(s, step).events.rows, x, horizon)
  {
    hide Meanwhile, EnqueueRow, NoStaleHints, Conserved, Increasing, Filed, Caps, UniqueRowids, BindingsOk, PanesOk;
    var e := s.events;
    NothingMeanwhile(e.rows, x, horizon);
    match step
    case Capture(enabled) =>
      if !enabled {
        DeletedIsFair(s, LedgerRuns.Next(s, step), HerdrRows(e.rows), x, horizon);
      }
    case Receive(id, body, now) =>
      EnqueueIsFair(e, id, NewRow(body, now, CurrentBackend(s.backend), External), now, x, horizon);
    case Expire(now) => DeletedIsFair(s, LedgerRuns.Next(s, step), Stale(e.rows, now), x, horizon);
    case Finish(id, fate) => DeletedIsFair(s, LedgerRuns.Next(s, step), {id} * e.rows.Keys, x, horizon);
    case Reschedule(id, attempts, next) =>
      if id in e.rows && id != x {
        RetryIsFair(e.rows, id, attempts, next, x, horizon);
      } else {
        assert LedgerRuns.Next(s, step).events.rows == e.rows;
      }
    case Configure(endpoint) =>
      assert LedgerRuns.Next(s, step).events.rows == e.rows;
    case Wipe => DeletedIsFair(s, LedgerRuns.Next(s, step), e.rows.Keys, x, horizon);
    case Connect(_, _, _) =>
  }

  /** So between any two points of a run. */
  lemma {:induction false} RunsAreFair(states: seq<State>, steps: seq<Step>, i: nat, j: nat, x: string, horizon: int)
    requires LedgerRuns.Run(states, steps) && |states| == |steps| + 1 && Inv(states[0]) && i <= j <= |steps|
    requires x in states[i].events.rows && states[i].events.rows[x].backend != ""
    requires forall m :: i <= m < j ==> x in states[m].events.rows && Bystander(states[m], steps[m], x, horizon)
    ensures Meanwhile(states[i].events.rows, states[j].events.rows, x, horizon)
    decreases j
  {
    hide LedgerRuns.Run, LedgerRuns.Next, Legal, Inv, Bystander, Meanwhile;
    if i == j {
      NothingMeanwhile(states[i].events.rows, x, horizon);
    } else {
      RunsAreFair(states, steps, i, j - 1, x, horizon);
      EveryStateIsSound(states, steps, j - 1);
      RunStep(states, steps, j - 1);
      SameRowMeanwhile(states[i].events.rows, states[j - 1].events.rows, x, horizon);
      StepsAreFair(states[j - 1], steps[j - 1], x, horizon);
      MeanwhileJoins(states[i].events.rows, states[j - 1].events.rows, states[j].events.rows, x, horizon);
    }
  }
}
