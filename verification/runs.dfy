/** Whole runs of the queue and the ledger: what holds in every reachable state. */
module LedgerRuns {
  import opened Options
  import opened HerdrMetadata
  import opened HostEvents
  import opened PendingEvents
  import opened Ledger
  import opened LedgerInvariant
  import opened LedgerRefinement
  import opened CodexIsolation

  /** One committed transaction. */
  datatype Step =
    | Connect(key: string, displayName: string, newId: string)
    | Capture(enabled: bool)
    | Snapshot(r: Reading, agents: seq<HerdrAgent>, ids: seq<string>)
    | Receive(id: string, body: Body, now: int)
    | Expire(now: int)
    | Finish(id: string, fate: Fate)
    | Reschedule(id: string, attempts: nat, nextAttempt: int)
    | Configure(endpoint: string)
    | Wipe

  ghost function Next(s: State, step: Step): State {
    match step
    case Connect(key, name, newId) => Bind(s, key, name, newId).0
    case Capture(enabled) => SetCapture(s, enabled)
    case Snapshot(r, agents, ids) => if |ids| == |agents| then Reconcile(s, r, agents, ids) else s
    case Receive(id, body, now) => Enqueue(s, id, body, now)
    case Expire(now) => s.(events := Purge(s.events, now))
    case Finish(id, fate) => s.(events := Delete(s.events, {id} * s.events.rows.Keys, fate))
    case Reschedule(id, attempts, next) => s.(events := s.events.(rows := Retried(s.events.rows, id, attempts, next)))
    case Configure(endpoint) =>
      s.(events := s.events.(rows := Assigned(s.events.rows, if s.backend.Some? then s.backend.value else endpoint)),
         backend := Some(endpoint))
    case Wipe => s.(events := Delete(s.events, s.events.rows.Keys, Discarded))
  }

  /** Only Herdr events and test notifications can be rejected for good. */
  predicate Rejectable(body: Body) {
    body.Parsed? && (EventSource(body.event) == HerdrSource || body.event.eventType == TestNotification)
  }

  /** Random ids are fresh, snapshots are as ReadHerdrAgents returns them and are committed under the
      session id of their binding, and a rejected event is one the daemon may drop. */
  ghost predicate Legal(s: State, step: Step) {
    match step
    case Connect(_, _, newId) => ValidID(newId) && forall k :: k in s.bindings ==> s.bindings[k].sessionId != newId
    case Snapshot(r, agents, ids) =>
      && |ids| == |agents| && (forall a :: a in agents ==> CheckedAgent(a))
      && (r.key in s.bindings ==> ReadFrom(r, s))
    case Receive(_, body, _) => Outside(body)
    case Finish(id, fate) =>
      fate == Accepted || (fate == Rejected && (id in s.events.rows ==> Rejectable(s.events.rows[id].body)))
    case Configure(endpoint) => endpoint != ""
    case _ => true
  }

  /** No hook text and no test notification is kept out of the runs. */
  lemma HooksAndTestsAreLegal(s: State, id: string, body: Body, now: int)
    ensures !FiledAsHerdr(body) || (body.Parsed? && body.event.eventType == TestNotification) ==> Legal(s, Receive(id, body, now))
  {
  }

  ghost predicate Run(states: seq<State>, steps: seq<Step>) {
    && |states| == |steps| + 1
    && forall i :: 0 <= i < |steps| ==> Legal(states[i], steps[i]) && states[i + 1] == Next(states[i], steps[i])
  }

  const EMPTY := State(Events(map[], []), None, false, map[], map[])

  // --- The invariant ---

  lemma StartIsSound()
    ensures Inv(EMPTY)
  {
    assert forall scope :: Members(EMPTY.events.rows, scope) == {};
  }

  /** Same rows but for attempts, next attempt and backend. */
  ghost predicate Touched(t: Table, u: Table) {
    t.Keys == u.Keys && forall id :: id in t ==>
      u[id] == t[id].(attempts := u[id].attempts, nextAttempt := u[id].nextAttempt, backend := u[id].backend)
  }

  lemma TouchKeepsCaps(t: Table, u: Table)
    requires UniqueRowids(t) && Caps(t) && Touched(t, u)
    ensures UniqueRowids(u) && Caps(u)
  {
    assert forall scope :: Members(u, scope) == Members(t, scope);
  }

  lemma TouchKeepsOrder(t: Table, u: Table)
    requires Filed(t) && Increasing(t) && Touched(t, u)
    ensures Filed(u) && Increasing(u)
  {
    hide FiledAsHerdr;
  }

  lemma TouchKeepsRows(e: Events, u: Table)
    requires RowsOk(e) && Touched(e.rows, u)
    ensures RowsOk(e.(rows := u))
  {
    hide Conserved, Caps, UniqueRowids, Filed, Increasing, Touched;
    TouchKeepsCaps(e.rows, u);
    TouchKeepsOrder(e.rows, u);
    TouchConserves(e, u);
  }

  lemma TouchConserves(e: Events, u: Table)
    requires Conserved(e) && Touched(e.rows, u)
    ensures Conserved(e.(rows := u))
  {
    forall n | 0 <= n < |e.fates| && e.fates[n] == Pending
      ensures exists id :: id in u && u[id].serial == n
    {
      var id :| id in e.rows && e.rows[id].serial == n;
      assert id in u && u[id].serial == n;
    }
  }

  lemma TouchKeepsHints(t: Table, u: Table, bindings: map<string, Binding>, panes: Panes)
    requires Touched(t, u) && NoStaleHints(t, bindings, panes)
    ensures NoStaleHints(u, bindings, panes)
  {
  }

  lemma NextKeepsInv(s: State, step: Step)
    requires Inv(s) && Legal(s, step)
    ensures Inv(Next(s, step))
  {
    match step
    case Connect(key, name, newId) => BindKeepsInv(s, key, name, newId);
    case Capture(enabled) => SetCaptureKeepsInv(s, enabled);
    case Snapshot(r, agents, ids) =>
      if r.key in s.bindings {
        ReconcileKeepsInv(s, r, agents, ids);
      }
    case Receive(id, body, now) => EnqueueKeepsInv(s, id, body, now);
    case Expire(now) => DeleteKeepsInv(s, Stale(s.events.rows, now), Expired);
    case Finish(id, fate) => DeleteKeepsInv(s, {id} * s.events.rows.Keys, fate);
    case Wipe => DeleteKeepsInv(s, s.events.rows.Keys, Discarded);
    case _ => TouchingStepKeepsInv(s, step);
  }

  lemma TouchingStep(s: State, step: Step)
    requires BackendOk(s.events.rows, s.backend) && Legal(s, step) && (step.Reschedule? || step.Configure?)
    ensures Touched(s.events.rows, Next(s, step).events.rows)
    ensures forall id :: id in s.events.rows && s.events.rows[id].backend != "" ==>
      Next(s, step).events.rows[id].backend == s.events.rows[id].backend
    ensures BackendOk(Next(s, step).events.rows, Next(s, step).backend)
    ensures Next(s, step) == s.(events := s.events.(rows := Next(s, step).events.rows), backend := Next(s, step).backend)
  {
  }

  lemma TouchingStepKeepsInv(s: State, step: Step)
    requires Inv(s) && Legal(s, step) && (step.Reschedule? || step.Configure?)
    ensures Inv(Next(s, step))
  {
    hide RowsOk, NoStaleHints, BackendOk, BindingsOk, PanesOk, Touched, Next, Legal;
    var u := Next(s, step).events.rows;
    TouchingStep(s, step);
    TouchKeepsRows(s.events, u);
    TouchKeepsHints(s.events.rows, u, s.bindings, s.panes);
  }

  lemma RunPrefix(states: seq<State>, steps: seq<Step>, n: nat)
    requires Run(states, steps) && n <= |steps|
    ensures Run(states[..n + 1], steps[..n])
  {
    hide Next, Legal;
    assert forall i :: 0 <= i < n ==> steps[..n][i] == steps[i];
  }

  lemma RunLength(states: seq<State>, steps: seq<Step>)
    requires Run(states, steps)
    ensures |states| == |steps| + 1
  {
  }

  lemma RunStep(states: seq<State>, steps: seq<Step>, i: nat)
    requires Run(states, steps) && i < |steps|
    ensures Legal(states[i], steps[i]) && states[i + 1] == Next(states[i], steps[i])
  {
  }

  /** Caps, consent, no stale hint, increasing sequences, bound backends and conservation hold in every
      state of every run from a sound state, the empty database for one. */
  lemma {:induction false} EveryStateIsSound(states: seq<State>, steps: seq<Step>, i: nat)
    requires Run(states, steps) && Inv(states[0]) && i <= |steps|
    ensures Inv(states[i])
  {
    hide Inv, Next, Legal, Run;
    RunLength(states, steps);
    if i > 0 {
      EveryStateIsSound(states, steps, i - 1);
      RunStep(states, steps, i - 1);
      NextKeepsInv(states[i - 1], steps[i - 1]);
    }
  }

  // --- Sequences of steps ---

  ghost function Play(s: State, steps: seq<Step>): State
    decreases |steps|
  {
    if steps == [] then s else Play(Next(s, steps[0]), steps[1..])
  }

  /** The legal steps lead from s to u. */
  ghost predicate Follows(s: State, steps: seq<Step>, u: State)
    decreases |steps|
  {
    if steps == [] then u == s
    else Legal(s, steps[0]) && Follows(Next(s, steps[0]), steps[1..], u)
  }

  lemma NoSteps(s: State)
    ensures Follows(s, [], s)
  {
  }

  lemma OneOrTwoSteps(s: State, first: Step, second: Step)
    requires Legal(s, first)
    ensures Follows(s, [first], Next(s, first))
    ensures Legal(Next(s, first), second) ==>
      Follows(s, [first] + [second], Next(Next(s, first), second))
  {
    hide Legal, Next;
    assert [second][1..] == [] && ([first] + [second])[1..] == [second];
    var t := Next(s, first);
    assert Follows(t, [], t);
    if Legal(t, second) {
      assert Follows(t, [second], Next(t, second)) by { NoSteps(Next(t, second)); }
    }
  }

  lemma FollowsFirst(s: State, first: Step, rest: seq<Step>, u: State)
    requires Follows(s, [first] + rest, u)
    ensures Legal(s, first) && Follows(Next(s, first), rest, u)
    ensures rest == [] ==> u == Next(s, first)
  {
    hide Legal, Next;
    assert ([first] + rest)[1..] == rest;
  }

  lemma {:induction false} FollowsIsRun(s: State, steps: seq<Step>, u: State) returns (states: seq<State>)
    requires Follows(s, steps, u)
    ensures Run(states, steps) && states[0] == s && states[|steps|] == u
    decreases |steps|
  {
    hide Legal, Next;
    if steps == [] {
      states := [s];
    } else {
      var rest := FollowsIsRun(Next(s, steps[0]), steps[1..], u);
      states := [s] + rest;
      forall i | 0 <= i < |steps| ensures Legal(states[i], steps[i]) && states[i + 1] == Next(states[i], steps[i]) {
        if i > 0 {
          assert steps[i] == steps[1..][i - 1] && states[i] == rest[i - 1] && states[i + 1] == rest[i];
        }
      }
    }
  }

  lemma {:induction false} FollowsKeepsInv(s: State, steps: seq<Step>, u: State)
    requires Inv(s) && Follows(s, steps, u)
    ensures Inv(u)
    decreases |steps|
  {
    hide Legal, Next, Inv;
    if steps != [] {
      NextKeepsInv(s, steps[0]);
      FollowsKeepsInv(Next(s, steps[0]), steps[1..], u);
    }
  }

  lemma {:induction false} FollowsJoins(s: State, first: seq<Step>, t: State, second: seq<Step>, u: State)
    requires Follows(s, first, t) && Follows(t, second, u)
    ensures Follows(s, first + second, u)
    decreases |first|
  {
    hide Legal, Next;
    if first == [] {
      assert first + second == second;
    } else {
      FollowsJoins(Next(s, first[0]), first[1..], t, second, u);
      assert (first + second)[1..] == first[1..] + second;
    }
  }

  lemma {:induction false} FollowsIsPlay(s: State, steps: seq<Step>, u: State)
    requires Follows(s, steps, u)
    ensures u == Play(s, steps)
    decreases |steps|
  {
    hide Legal, Next;
    if steps != [] {
      FollowsIsPlay(Next(s, steps[0]), steps[1..], u);
    }
  }

  // --- The ledger is the last snapshot ---

  /** The abstract ledger: the last snapshot of each binding since capture was last off. */
  type Snapshots = map<string, seq<HerdrAgent>>

  function NextSnapshots(snaps: Snapshots, s: State, step: Step): Snapshots {
    match step
    case Snapshot(r, agents, _) => if Listening(s, r.key) then snaps[r.key := agents] else snaps
    case Capture(enabled) => if enabled then snaps else map[]
    case _ => snaps
  }

  function SnapshotsAfter(states: seq<State>, steps: seq<Step>): Snapshots
    requires |states| == |steps| + 1
  {
    if steps == [] then map[]
    else
      var n := |steps| - 1;
      NextSnapshots(SnapshotsAfter(states[..n + 1], steps[..n]), states[n], steps[n])
  }

  ghost predicate Mirrors(panes: Panes, snaps: Snapshots) {
    forall k: PaneKey ::
      && (k in panes <==> k.binding in snaps && LastOf(snaps[k.binding], k.pane).Some?)
      && (k in panes ==> panes[k] == PaneOf(LastOf(snaps[k.binding], k.pane).value))
  }

  lemma SnapshotMirrors(s: State, r: Reading, agents: seq<HerdrAgent>, ids: seq<string>, snaps: Snapshots)
    requires |ids| == |agents| && Mirrors(s.panes, snaps) && Listening(s, r.key)
    ensures Mirrors(Reconcile(s, r, agents, ids).panes, snaps[r.key := agents])
  {
    var t := Reconcile(s, r, agents, ids).panes;
    forall k: PaneKey
      ensures
        if k.binding == r.key then
          (k in t <==> LastOf(agents, k.pane).Some?) && (k in t ==> t[k] == PaneOf(LastOf(agents, k.pane).value))
        else (k in t <==> k in s.panes) && (k in t ==> t[k] == s.panes[k])
    {
      LedgerIsSnapshot(s, r, agents, ids, k);
    }
  }

  lemma NextMirrors(s: State, step: Step, snaps: Snapshots)
    requires Legal(s, step) && Mirrors(s.panes, snaps)
    ensures Mirrors(Next(s, step).panes, NextSnapshots(snaps, s, step))
  {
    if step.Snapshot? && Listening(s, step.r.key) {
      SnapshotMirrors(s, step.r, step.agents, step.ids, snaps);
    } else if step == Capture(false) {
    } else {
      hide Mirrors, EnqueueRow, NewRow;
      assert Next(s, step).panes == s.panes;
    }
  }

  /** After any run the pane table of every binding is exactly its last reconciled snapshot, and
      empty if capture was turned off since. */
  lemma {:induction false} LedgerMirrorsSnapshots(states: seq<State>, steps: seq<Step>)
    requires Run(states, steps) && states[0].panes == map[]
    ensures Mirrors(states[|steps|].panes, SnapshotsAfter(states, steps))
  {
    if steps != [] {
      var n := |steps| - 1;
      RunPrefix(states, steps, n);
      RunStep(states, steps, n);
      hide Mirrors, Next, Legal;
      LedgerMirrorsSnapshots(states[..n + 1], steps[..n]);
      NextMirrors(states[n], steps[n], SnapshotsAfter(states[..n + 1], steps[..n]));
    }
  }

  // --- Rows never change their event or leave their backend ---

  predicate SameEvent(a: Row, b: Row) {
    && a.body == b.body && a.created == b.created && a.expires == b.expires && a.source == b.source
    && a.session == b.session && a.pane == b.pane && a.serial == b.serial && a.origin == b.origin
    && (a.backend != "" ==> b.backend == a.backend)
  }

  /** Every later row was inserted later or is an earlier row, on its backend; settled fates stay. */
  ghost predicate Descends(e: Events, f: Events) {
    && FatesFinal(e.fates, f.fates)
    && forall id :: id in f.rows ==>
      f.rows[id].serial >= |e.fates| || (id in e.rows && SameEvent(e.rows[id], f.rows[id]))
  }

  lemma DescendsTransitive(e: Events, f: Events, g: Events)
    requires Descends(e, f) && Descends(f, g)
    ensures Descends(e, g)
  {
  }

  lemma DeleteDescends(e: Events, ids: set<string>, why: Fate)
    requires Conserved(e) && ids <= e.rows.Keys && why != Pending
    ensures Descends(e, Delete(e, ids, why)) && Conserved(Delete(e, ids, why))
  {
    DeleteConserves(e, ids, why);
  }

  lemma EnqueueDescends(e: Events, id: string, row: Row, now: int)
    requires Conserved(e) && UniqueRowids(e.rows) && Caps(e.rows)
    ensures Descends(e, EnqueueRow(e, id, row, now)) && Conserved(EnqueueRow(e, id, row, now))
  {
    EnqueueConserves(e, id, row, now);
    EnqueueKeepsCaps(e, id, row, now);
  }

  lemma ObserveDescends(s: State, r: Reading, a: HerdrAgent, id: string)
    requires RowsOk(s.events)
    ensures Descends(s.events, Observe(s, r, a, id).events)
  {
    var d := Decide(Prior(s.panes, r.key, a), a, r.baseline);
    hide PaneRow, Decide, Caps, UniqueRowids;
    var gone := OfPane(s.events.rows, r.sessionId, a.paneId);
    var kept := if d.purge then Delete(s.events, gone, Discarded) else s.events;
    DeleteKeepsRows(s.events, gone, Discarded);
    DeleteDescends(s.events, gone, Discarded);
    var row := PaneRow(s.backend, r, a, if d.send.Some? then d.send.value else OtherType);
    EnqueueDescends(kept, id, row, r.now);
    hide EnqueueRow, Descends;
    DescendsRefl(s.events);
    DescendsRefl(kept);
    DescendsTransitive(s.events, kept, if d.send.Some? then EnqueueRow(kept, id, row, r.now) else kept);
  }

  lemma DescendsRefl(e: Events)
    ensures Descends(e, e)
  {
  }

  lemma {:induction false} ObserveAllDescends(s: State, r: Reading, agents: seq<HerdrAgent>, ids: seq<string>)
    requires |ids| == |agents| && Inv(s) && ReadFrom(r, s) && forall a :: a in agents ==> CheckedAgent(a)
    requires s.bindings[r.key].enabled && s.bindings[r.key].incarnation == r.incarnation
    ensures Descends(s.events, ObserveAll(s, r, agents, ids).events)
  {
    if agents != [] {
      var n := |agents| - 1;
      ObserveAllKeepsInv(s, r, agents[..n], ids[..n]);
      hide Observe, Descends;
      ObserveAllDescends(s, r, agents[..n], ids[..n]);
      var u := ObserveAll(s, r, agents[..n], ids[..n]);
      ObserveDescends(u, r, agents[n], ids[n]);
      DescendsTransitive(s.events, u.events, Observe(u, r, agents[n], ids[n]).events);
    } else {
      DescendsRefl(s.events);
    }
  }

  lemma ReconcileDescends(s: State, r: Reading, agents: seq<HerdrAgent>, ids: seq<string>)
    requires |ids| == |agents| && Inv(s) && ReadFrom(r, s) && forall a :: a in agents ==> CheckedAgent(a)
    ensures Descends(s.events, Reconcile(s, r, agents, ids).events)
  {
    if Listening(s, r.key) {
      var u, r' := Rebase(s, r), Baselined(s, r);
      RebaseKeepsInv(s, r);
      DeleteDescends(s.events, OfSession(s.events.rows, r.sessionId), Discarded);
      DescendsRefl(s.events);
      ObserveAllKeepsInv(u, r', agents, ids);
      ObserveAllDescends(u, r', agents, ids);
      var v := ObserveAll(u, r', agents, ids);
      DeleteDescends(v.events, OfPanes(v.events.rows, r.sessionId, Removed(v.panes, r.key, agents)), Discarded);
      hide Descends, ObserveAll;
      DescendsTransitive(s.events, u.events, v.events);
      DescendsTransitive(s.events, v.events, Sweep(v, r, agents).events);
    } else {
      DescendsRefl(s.events);
    }
  }

  lemma TouchDescends(e: Events, u: Table)
    requires Conserved(e) && Touched(e.rows, u)
    requires forall id :: id in u && e.rows[id].backend != "" ==> u[id].backend == e.rows[id].backend
    ensures Descends(e, e.(rows := u))
  {
  }

  lemma NextDescends(s: State, step: Step)
    requires Inv(s) && Legal(s, step)
    ensures Descends(s.events, Next(s, step).events)
  {
    hide Descends, FatesFinal, NoStaleHints, BackendOk, BindingsOk, PanesOk, NewRow, Touched, Reconcile, EnqueueRow;
    DescendsRefl(s.events);
    match step
    case Capture(enabled) => DeleteDescends(s.events, HerdrRows(s.events.rows), Discarded);
    case Snapshot(r, agents, ids) =>
      if r.key in s.bindings {
        ReconcileDescends(s, r, agents, ids);
      } else {
        UnknownBinding(s, r, agents, ids);
      }
    case Receive(id, body, now) => EnqueueDescends(s.events, id, NewRow(body, now, CurrentBackend(s.backend), External), now);
    case Expire(now) => DeleteDescends(s.events, Stale(s.events.rows, now), Expired);
    case Finish(id, fate) => DeleteDescends(s.events, {id} * s.events.rows.Keys, fate);
    case Wipe => DeleteDescends(s.events, s.events.rows.Keys, Discarded);
    case Connect(_, _, _) =>
    case _ => TouchingStepDescends(s, step);
  }

  lemma UnknownBinding(s: State, r: Reading, agents: seq<HerdrAgent>, ids: seq<string>)
    requires |ids| == |agents| && r.key !in s.bindings
    ensures Reconcile(s, r, agents, ids) == s
  {
  }

  lemma TouchingStepDescends(s: State, step: Step)
    requires Inv(s) && Legal(s, step) && (step.Reschedule? || step.Configure?)
    ensures Descends(s.events, Next(s, step).events)
  {
    hide Descends, NoStaleHints, BackendOk, BindingsOk, PanesOk, Touched, Next, Legal;
    TouchingStep(s, step);
    TouchDescends(s.events, Next(s, step).events.rows);
  }

  lemma DescendsFurther(e: Events, s: State, step: Step)
    requires Descends(e, s.events) && Inv(s) && Legal(s, step)
    ensures Descends(e, Next(s, step).events)
  {
    hide Descends, Inv, Next, Legal;
    NextDescends(s, step);
    DescendsTransitive(e, s.events, Next(s, step).events);
  }

  /** Between any two points of a run: a row is later or the same event on the same backend, and what
      has left the queue keeps its one fate. */
  lemma {:induction false} RowsKeepTheirBackend(states: seq<State>, steps: seq<Step>, i: nat, j: nat)
    requires Run(states, steps) && Inv(states[0]) && i <= j <= |steps|
    ensures Descends(states[i].events, states[j].events)
    decreases j
  {
    hide Run, Inv, Next, Legal, Descends;
    RunLength(states, steps);
    if i < j {
      RowsKeepTheirBackend(states, steps, i, j - 1);
      EveryStateIsSound(states, steps, j - 1);
      RunStep(states, steps, j - 1);
      DescendsFurther(states[i].events, states[j - 1], steps[j - 1]);
    } else {
      DescendsRefl(states[i].events);
    }
  }

  // --- How a Codex event can leave ---

  /** Row j is an unexpired Codex row and stays exactly as it is. */
  ghost predicate Stays(e: Events, f: Events, now: int, j: string) {
    Live(e.rows, now, j) ==> Live(f.rows, now, j) && f.rows[j] == e.rows[j]
  }

  lemma ObserveKeepsCodex(s: State, r: Reading, a: HerdrAgent, id: string, j: string)
    requires Inv(s) && ReadFrom(r, s) && CheckedAgent(a) && id !in s.events.rows
    ensures Stays(s.events, Observe(s, r, a, id).events, r.now, j)
  {
    hide PaneRow, Decide, FiledAsHerdr, Conserved, Filed, Increasing, NoStaleHints;
    var d := Decide(Prior(s.panes, r.key, a), a, r.baseline);
    var gone := OfPane(s.events.rows, r.sessionId, a.paneId);
    var kept := if d.purge then Delete(s.events, gone, Discarded) else s.events;
    DeleteKeepsRows(s.events, gone, Discarded);
    if d.send.Some? {
      DecideFacts(Prior(s.panes, r.key, a), a, r.baseline);
      PaneRowFacts(s.backend, r, a, d.send.value);
      HerdrKeepsCodex(kept, id, PaneRow(s.backend, r, a, d.send.value), r.now, j);
    }
  }

  lemma {:induction false} ObserveAllKeepsCodex(s: State, r: Reading, agents: seq<HerdrAgent>, ids: seq<string>, j: string)
    requires |ids| == |agents| && Inv(s) && ReadFrom(r, s) && forall a :: a in agents ==> CheckedAgent(a)
    requires s.bindings[r.key].enabled && s.bindings[r.key].incarnation == r.incarnation
    requires FreshIds(s.events.rows, ids)
    ensures Stays(s.events, ObserveAll(s, r, agents, ids).events, r.now, j)
  {
    hide Observe, Inv, Emissions, CheckedAgent;
    if agents != [] {
      var n := |agents| - 1;
      ObserveAllKeepsInv(s, r, agents[..n], ids[..n]);
      ObserveAllKeepsCodex(s, r, agents[..n], ids[..n], j);
      EmissionsAreInserted(s, r, agents[..n], ids[..n]);
      assert ids[n] !in ids[..n];
      ObserveKeepsCodex(ObserveAll(s, r, agents[..n], ids[..n]), r, agents[n], ids[n], j);
    }
  }

  lemma HerdrDeletionsKeepCodex(s: State, r: Reading, agents: seq<HerdrAgent>, j: string)
    requires r.key in s.bindings
    ensures Stays(s.events, Rebase(s, r).events, r.now, j) && Rebase(s, r).events.rows.Keys <= s.events.rows.Keys
    ensures Stays(s.events, Sweep(s, r, agents).events, r.now, j)
  {
  }

  lemma ReconcileKeepsCodex(s: State, r: Reading, agents: seq<HerdrAgent>, ids: seq<string>, j: string)
    requires |ids| == |agents| && Inv(s) && ReadFrom(r, s) && forall a :: a in agents ==> CheckedAgent(a)
    requires FreshIds(s.events.rows, ids)
    ensures Stays(s.events, Reconcile(s, r, agents, ids).events, r.now, j)
  {
    hide Inv, ObserveAll, Rebase, Sweep, CheckedAgent;
    if Listening(s, r.key) {
      var u, r' := Rebase(s, r), Baselined(s, r);
      RebaseKeepsInv(s, r);
      HerdrDeletionsKeepCodex(s, r, agents, j);
      ObserveAllKeepsCodex(u, r', agents, ids, j);
      ObserveAllPanes(u, r', agents, ids);
      HerdrDeletionsKeepCodex(ObserveAll(u, r', agents, ids), r, agents, j);
    }
  }

  /** What the daemon queues for a Codex hook. */
  predicate ValidHook(body: Body) { body.Parsed? && Valid(body.event) && EventSource(body.event) == CodexSource }

  lemma HooksAreNotRejectable(body: Body)
    ensures ValidHook(body) ==> !Rejectable(body)
  {
  }

  function ReceivedRow(s: State, step: Step): Row
    requires step.Receive?
  {
    NewRow(step.body, step.now, CurrentBackend(s.backend), External)
  }

  /** The unexpired Codex rows newer than a row. */
  function NewerCodex(t: Table, now: int, row: Row): set<string> {
    set i | i in t && t[i].source == Codex && t[i].expires > now
      && (t[i].created > row.created || (t[i].created == row.created && t[i].rowid > row.rowid))
  }

  lemma EvictedByNewerCodex(e: Events, id: string, row: Row, now: int, j: string)
    requires UniqueRowids(e.rows) && Caps(e.rows) && j in e.rows && e.rows[j].source == Codex && e.rows[j].expires > now
    requires j !in EnqueueRow(e, id, row, now).rows
    ensures |NewerCodex(Insert(e, id, row).rows, now, e.rows[j])| >= 500
  {
    hide UniqueRowids, Caps, EnqueueRow, Survives, NewerCodex, Passes, NextRowid;
    InsertLeavesOthersCapped(e, id, row);
    EnqueueIsPasses(e, id, row, now);
    PassesAreClosedForm(Insert(e, id, row), row.session, now, j);
    CodexCutIsFull(Insert(e, id, row).rows, now, j);
  }

  lemma CodexCutIsFull(t: Table, now: int, j: string)
    requires j in t && t[j].source == Codex && t[j].expires > now && !Survives(t, now, j)
    ensures |NewerCodex(t, now, t[j])| >= 500
  {
    assert NewerKept(t, now, j) == NewerCodex(t, now, t[j]);
  }


  /** A Codex event leaves the queue only accepted, expired, evicted by 500 newer Codex events, or wiped on
      uninstall: no observation, consent change or rejection takes it away. */
  lemma CodexDepartures(s: State, step: Step, j: string)
    requires Inv(s) && Legal(s, step) && j in s.events.rows && s.events.rows[j].source == Codex
    requires step.Snapshot? ==> FreshIds(s.events.rows, step.ids)
    requires step.Receive? && FiledAsHerdr(step.body) ==> step.id !in s.events.rows
    requires j !in Next(s, step).events.rows
    ensures match step
      case Wipe => true
      case Finish(id, fate) => id == j && (fate == Accepted || !ValidHook(s.events.rows[j].body))
      case Expire(now) => s.events.rows[j].expires <= now
      case Snapshot(r, _, _) => s.events.rows[j].expires <= r.now
      case Receive(id, body, now) =>
        s.events.rows[j].expires <= now
        || (!FiledAsHerdr(body)
            && |NewerCodex(Insert(s.events, id, ReceivedRow(s, step)).rows, now, s.events.rows[j])| >= 500)
      case _ => false
  {
    hide Inv, EnqueueRow, Reconcile, Valid, ValidHook, Rejectable, NewerCodex, Insert, FiledAsHerdr, CheckedAgent, Outside;
    HooksAreNotRejectable(s.events.rows[j].body);
    match step
    case Snapshot(r, agents, ids) =>
      if r.key in s.bindings {
        ReconcileKeepsCodex(s, r, agents, ids, j);
      } else {
        UnknownBinding(s, r, agents, ids);
      }
    case Receive(_, _, _) => ReceiveDepartures(s, step, j);
    case _ =>
  }

  lemma ReceiveDepartures(s: State, step: Step, j: string)
    requires Inv(s) && step.Receive? && j in s.events.rows && s.events.rows[j].source == Codex
    requires FiledAsHerdr(step.body) ==> step.id !in s.events.rows
    requires j !in Next(s, step).events.rows
    ensures s.events.rows[j].expires <= step.now
      || (!FiledAsHerdr(step.body)
          && |NewerCodex(Insert(s.events, step.id, ReceivedRow(s, step)).rows, step.now, s.events.rows[j])| >= 500)
  {
    hide NoStaleHints, Conserved, Increasing, Caps, UniqueRowids, Filed, BackendOk, BindingsOk, PanesOk;
    hide EnqueueRow, NewerCodex, Insert;
    if FiledAsHerdr(step.body) {
      HerdrKeepsCodex(s.events, step.id, ReceivedRow(s, step), step.now, j);
    } else if s.events.rows[j].expires > step.now {
      EvictedByNewerCodex(s.events, step.id, ReceivedRow(s, step), step.now, j);
    }
  }
}
