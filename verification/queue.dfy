/** The durable queue as a class over its tables; every method is proved against its function. */
module DurableQueue {
  import opened Options
  import opened HerdrMetadata
  import opened HostEvents
  import opened PendingEvents
  import opened CodexIsolation
  import opened Dequeue
  import opened AgentConfig
  import opened Ledger
  import opened LedgerRuns

  lemma DeletedTwice(e: Events, a: set<string>, b: set<string>, why: Fate)
    requires a <= e.rows.Keys && b <= e.rows.Keys - a
    ensures Delete(Delete(e, a, why), b, why) == Delete(e, a + b, why)
  {
    var f := Delete(e, a, why);
    assert Serials(e.rows, a + b) == Serials(e.rows, a) + Serials(f.rows, b);
  }

  lemma NothingSwept(e: Events, session: string)
    ensures OfPanes(e.rows, session, {}) == {} && Delete(e, {}, Discarded) == e
  {
  }

  /** Deleting the events of one more pane. */
  lemma OnePaneMore(e: Events, session: string, done: set<PaneKey>, k: PaneKey)
    ensures var f := Delete(e, OfPanes(e.rows, session, done), Discarded);
      && OfPane(f.rows, session, k.pane) <= f.rows.Keys
      && Delete(f, OfPane(f.rows, session, k.pane), Discarded) == Delete(e, OfPanes(e.rows, session, done + {k}), Discarded)
  {
    var before := OfPanes(e.rows, session, done);
    var gone := OfPane(Delete(e, before, Discarded).rows, session, k.pane);
    DeletedTwice(e, before, gone, Discarded);
    assert OfPanes(e.rows, session, done + {k}) == before + gone;
  }

  lemma SoonerIsTotal(t: Table, last: Option<Source>, a: string, b: string)
    requires UniqueRowids(t) && a in t && b in t && a != b
    ensures Sooner(t[a], t[b], last) || Sooner(t[b], t[a], last)
    ensures Sooner(t[a], t[b], last) ==> forall j :: j in t && Sooner(t[b], t[j], last) ==> Sooner(t[a], t[j], last)
  {
  }

  lemma SweepIs(s: State, r: Reading, agents: seq<HerdrAgent>)
    ensures var removed := Removed(s.panes, r.key, agents);
      Sweep(s, r, agents) ==
        s.(events := Delete(s.events, OfPanes(s.events.rows, r.sessionId, removed), Discarded), panes := s.panes - removed)
  {
  }

  class Queue {
    var rows: Table
    var fates: seq<Fate>
    var lastSource: Option<Source>
    var backend: Option<string>
    var adapter: bool
    var bindings: map<string, Binding>
    var panes: Panes

    function Stored(): Events
      reads this
    {
      Events(rows, fates)
    }

    function View(): State
      reads this
    {
      State(Stored(), backend, adapter, bindings, panes)
    }

    constructor ()
      ensures View() == EMPTY && lastSource == None
    {
      rows, fates, lastSource := map[], [], None;
      backend, adapter, bindings, panes := None, false, map[], map[];
    }

    // --- pending_events ---

    /** DELETE FROM pending_events WHERE event_id is among ids. */
    method DeleteRows(ids: set<string>, why: Fate)
      requires ids <= rows.Keys
      modifies this`rows, this`fates
      ensures Stored() == Delete(old(Stored()), ids, why)
    {
      rows, fates := rows - ids, Settle(fates, Serials(rows, ids), why);
    }

    method HighestRowid() returns (highest: nat)
      ensures highest == MaxRowid(rows, rows.Keys)
    {
      highest := 0;
      var todo := rows.Keys;
      while todo != {}
        invariant todo <= rows.Keys
        invariant forall id :: id in rows && id !in todo ==> rows[id].rowid <= highest
        invariant highest == 0 || exists id :: id in rows && rows[id].rowid == highest
        decreases |todo|
      {
        var id :| id in todo;
        todo := todo - {id};
        if rows[id].rowid > highest {
          highest := rows[id].rowid;
        }
      }
      MaxRowidBounds(rows, rows.Keys);
    }

    method InsertOrIgnore(id: string, row: Row)
      modifies this`rows, this`fates
      ensures Stored() == Insert(old(Stored()), id, row)
    {
      if id !in rows {
        var highest := HighestRowid();
        rows, fates := rows[id := row.(rowid := 1 + highest, serial := |fates|)], fates + [Pending];
      }
    }

    method EnqueueEvent(id: string, body: Body, now: int, origin: Origin)
      modifies this`rows, this`fates
      ensures Stored() == EnqueueRow(old(Stored()), id, NewRow(body, now, CurrentBackend(backend), origin), now)
    {
      var source, session, pane := Codex, "", "";
      var expires := now + CODEX_LIFETIME;
      if body.Parsed? && EventSource(body.event) == HerdrSource && Valid(body.event) {
        source, session, pane := Herdr, body.event.target.value.sessionId, body.event.target.value.paneId;
        expires := body.event.occurredAt + HERDR_LIFETIME;
      }
      var row := Row(body, 0, now, now, expires, source, session, pane, CurrentBackend(backend), 0, 0, origin);
      assert row == NewRow(body, now, CurrentBackend(backend), origin);
      InsertAndPrune(id, row, now);
    }

    method InsertAndPrune(id: string, row: Row, now: int)
      modifies this`rows, this`fates
      ensures Stored() == EnqueueRow(old(Stored()), id, row, now)
    {
      InsertOrIgnore(id, row);
      DeleteRows(Stale(rows, now), Expired);
      DeleteRows(Overflow(rows, InSession(row.session), SESSION_CAP), Evicted);
      DeleteRows(Overflow(rows, AllHerdr, HERDR_CAP), Evicted);
      DeleteRows(Overflow(rows, Everything, TOTAL_CAP), Evicted);
    }

    method Enqueue(id: string, body: Body, now: int)
      modifies this`rows, this`fates
      ensures View() == Next(old(View()), Receive(id, body, now))
    {
      EnqueueEvent(id, body, now, External);
    }

    method ConfigureBackend(endpoint: string)
      modifies this`rows, this`backend
      ensures View() == Next(old(View()), Configure(TrimSlashes(endpoint)))
      ensures rows.Keys == old(rows).Keys && backend == Some(TrimSlashes(endpoint))
      ensures forall id :: id in rows ==>
        if old(rows)[id].backend != "" then rows[id] == old(rows)[id]
        else rows[id] == old(rows)[id].(backend := if old(backend).Some? then old(backend).value else TrimSlashes(endpoint))
    {
      var trimmed := TrimSlashes(endpoint);
      var owner := if backend.Some? then backend.value else trimmed;
      rows := map id | id in rows :: if rows[id].backend == "" then rows[id].(backend := owner) else rows[id];
      backend := Some(trimmed);
      assert rows == Assigned(old(rows), owner);
    }

    /** The due row to send next, if any; lastSource remembers which source went last. */
    method NextForBackend(now: int, endpoint: string) returns (next: Option<string>)
      requires UniqueRowids(rows)
      modifies this`rows, this`fates, this`lastSource
      ensures View() == LedgerRuns.Next(old(View()), Expire(now))
      ensures next.None? <==> forall id :: id in rows ==>
        !(rows[id].nextAttempt <= now && rows[id].expires > now
          && (TrimSlashes(endpoint) == "" || rows[id].backend == TrimSlashes(endpoint)))
      ensures next.Some? ==>
        && next.value in rows && rows[next.value].nextAttempt <= now && rows[next.value].expires > now
        && (TrimSlashes(endpoint) == "" || rows[next.value].backend == TrimSlashes(endpoint))
      ensures forall id :: id in rows <==> id in old(rows) && old(rows)[id].expires > now
      ensures next.None? ==> lastSource == old(lastSource)
      ensures next.Some? ==>
        IsNext(rows, now, TrimSlashes(endpoint), old(lastSource), next.value) && lastSource == Some(rows[next.value].source)
    {
      DeleteRows(Stale(rows, now), Expired);
      next := FirstDue(now, TrimSlashes(endpoint));
      if next.Some? {
        lastSource := Some(rows[next.value].source);
      }
    }

    /** SELECT ... ORDER BY ... LIMIT 1 */
    method FirstDue(now: int, owner: string) returns (next: Option<string>)
      requires UniqueRowids(rows)
      ensures next.None? <==> forall id :: id in rows ==> !Eligible(rows[id], now, owner)
      ensures next.Some? ==> IsNext(rows, now, owner, lastSource, next.value)
    {
      next := None;
      var todo := rows.Keys;
      while todo != {}
        invariant todo <= rows.Keys
        invariant next.Some? ==> next.value in rows && next.value !in todo && Eligible(rows[next.value], now, owner)
        invariant forall j :: j in rows && j !in todo && Eligible(rows[j], now, owner) ==>
          next.Some? && (j == next.value || Sooner(rows[next.value], rows[j], lastSource))
        decreases |todo|
      {
        var id :| id in todo;
        todo := todo - {id};
        if Eligible(rows[id], now, owner) {
          if next.None? {
            next := Some(id);
          } else {
            SoonerIsTotal(rows, lastSource, id, next.value);
            if Sooner(rows[id], rows[next.value], lastSource) {
              next := Some(id);
            }
          }
        }
      }
    }

    /** The event left the queue; fate says why the caller completed it. */
    method Complete(id: string, fate: Fate)
      modifies this`rows, this`fates
      ensures View() == LedgerRuns.Next(old(View()), Finish(id, fate))
      ensures rows == old(rows) - {id} && |fates| == |old(fates)|
      ensures forall n :: 0 <= n < |fates| ==>
        fates[n] == if id in old(rows) && n == old(rows)[id].serial then fate else old(fates)[n]
    {
      DeleteRows({id} * rows.Keys, fate);
      assert rows == old(rows) - {id};
    }

    method Retry(id: string, attempts: nat, next: int)
      modifies this`rows
      ensures View() == LedgerRuns.Next(old(View()), Reschedule(id, attempts, next))
      ensures rows.Keys == old(rows).Keys && forall j :: j in rows && j != id ==> rows[j] == old(rows)[j]
      ensures id in rows ==> rows[id] == old(rows)[id].(attempts := attempts, nextAttempt := next)
    {
      if id in rows {
        rows := rows[id := rows[id].(attempts := attempts, nextAttempt := next)];
      }
    }

    method ClearNotificationCapture()
      modifies this
      ensures View() == LedgerRuns.Next(LedgerRuns.Next(old(View()), Capture(false)), Wipe)
      ensures rows == map[] && panes == map[] && !adapter && bindings.Keys == old(bindings).Keys
    {
      SetHerdrCaptureEnabled(false);
      DeleteRows(rows.Keys, Discarded);
      assert rows.Keys == {};
    }

    // --- herdr_adapter and herdr_bindings ---

    method SetHerdrCaptureEnabled(enabled: bool)
      modifies this
      ensures View() == SetCapture(old(View()), enabled) && lastSource == old(lastSource)
      ensures adapter == enabled && bindings.Keys == old(bindings).Keys
      ensures enabled ==> rows == old(rows) && panes == old(panes) && bindings == old(bindings)
      ensures !enabled ==>
        && panes == map[] && (forall id :: id in rows <==> id in old(rows) && old(rows)[id].source == Codex)
        && (forall id :: id in rows ==> rows[id] == old(rows)[id])
        && forall key :: key in bindings ==> bindings[key] == old(bindings)[key].(enabled := false)
    {
      adapter := enabled;
      if !enabled {
        bindings := map key | key in bindings :: bindings[key].(enabled := false);
        assert bindings == Disabled(old(bindings));
        DeleteRows(HerdrRows(rows), Discarded);
        panes := map[];
      }
    }

    method BindHerdr(key: string, displayName: string, newId: string) returns (binding: Option<Binding>)
      modifies this`bindings
      ensures (View(), binding) == Bind(old(View()), key, displayName, newId)
      ensures binding.Some? <==> adapter && (key in old(bindings) || |old(bindings)| < 128)
      ensures bindings == if binding.None? then old(bindings) else old(bindings)[key := binding.value]
      ensures binding.Some? && key in old(bindings) ==> binding.value == old(bindings)[key].(enabled := true)
      ensures binding.Some? && key !in old(bindings) ==> binding.value == Binding(newId, displayName, "", true)
    {
      if key in bindings {
        if !adapter {
          return None;
        }
        bindings := bindings[key := bindings[key].(enabled := true)];
        return Some(bindings[key]);
      }
      if |bindings| < MAX_BINDINGS && adapter {
        bindings := bindings[key := Binding(newId, displayName, "", true)];
      }
      return if key in bindings then Some(bindings[key]) else None;
    }

    // --- Reconciliation ---

    /** The event to send and whether queued ones are stale, from the ledger row of the pane. */
    method Compare(r: Reading, a: HerdrAgent) returns (typeToSend: Option<EventType>, stale: bool)
      ensures Decide(Prior(panes, r.key, a), a, r.baseline) == Decision(typeToSend, stale)
    {
      var key := PaneKey(r.key, a.paneId);
      var terminal, sequence, status := "", 0, Unknown;
      var newPane := key !in panes;
      if !newPane {
        terminal, sequence, status := panes[key].terminal, panes[key].sequence, panes[key].status;
      }
      var initial := newPane || terminal != a.terminalId || a.sequence < sequence;
      typeToSend := None;
      if !r.baseline && !initial && a.agent != "" && a.sequence > sequence {
        if a.status == Blocked && status != Blocked {
          typeToSend := Some(AttentionRequired);
        }
        var completed := status == Working;
        if a.completionSupported {
          completed := a.completionSequence.Some? && a.completionSequence.value == a.sequence;
        }
        if completed && (a.status == Idle || a.status == Done) {
          typeToSend := Some(ProgressUpdated);
        }
      }
      stale := initial && terminal != "";
    }

    /** One agent of the snapshot against the ledger row of its pane. */
    method ObserveAgent(r: Reading, a: HerdrAgent, id: string)
      modifies this`rows, this`fates, this`panes
      ensures View() == Observe(old(View()), r, a, id)
    {
      hide Decide, EnqueueRow, NewRow, PaneEvent, Delete;
      var typeToSend, stale := Compare(r, a);
      if stale {
        DeleteRows(OfPane(rows, r.sessionId, a.paneId), Discarded);
      }
      panes := panes[PaneKey(r.key, a.paneId) := Pane(a.terminalId, a.sequence, a.status)];
      if typeToSend.Some? {
        var event := BuildEvent(r, a, typeToSend.value);
        EnqueueEvent(id, Parsed(event), r.now, FromPane(r.key, r.incarnation, a.terminalId, a.sequence));
      }
    }

    /** The metadata is normalised, given the session name, and normalised again. */
    method BuildEvent(r: Reading, a: HerdrAgent, kind: EventType) returns (event: HostEvent)
      ensures event == PaneEvent(a, kind, r.sessionId, r.displayName, r.now)
    {
      var m := Normalize(Metadata("", a.workspaceId, StatusText(a.status), a.agent, a.title, a.displayAgent, a.stateLabels));
      m := Normalize(m.(sessionName := r.displayName));
      event := HostEvent(HERDR_VERSION, kind, "", "", "", r.now, HerdrSource,
                         Some(Target(r.sessionId, a.paneId, CodexThreadID(a), "")), Some(m));
    }

    method PanesToKeep(agents: seq<HerdrAgent>) returns (keep: set<string>)
      ensures keep == set a | a in agents :: a.paneId
    {
      keep := {};
      for i := 0 to |agents|
        invariant keep == set a | a in agents[..i] :: a.paneId
      {
        assert agents[..i + 1] == agents[..i] + [agents[i]];
        keep := keep + {agents[i].paneId};
      }
      assert agents[..|agents|] == agents;
    }

    /** Drop the panes that disappeared, one by one, with their queued events. */
    method SweepRemoved(r: Reading, agents: seq<HerdrAgent>)
      modifies this`rows, this`fates, this`panes
      ensures View() == Sweep(old(View()), r, agents)
    {
      hide Delete, OfPane, OfPanes, Sweep;
      var keep := PanesToKeep(agents);
      var todo := set k | k in panes && k.binding == r.key && k.pane !in keep;
      ghost var s, removed := View(), todo;
      assert removed == Removed(s.panes, r.key, agents);
      assert removed - todo == {};
      NothingSwept(s.events, r.sessionId);
      while todo != {}
        invariant todo <= removed
        invariant Stored() == Delete(s.events, OfPanes(s.events.rows, r.sessionId, removed - todo), Discarded)
        invariant panes == s.panes - (removed - todo)
        decreases |todo|
      {
        hide Removed;
        var k :| k in todo;
        OnePaneMore(s.events, r.sessionId, removed - todo, k);
        assert removed - (todo - {k}) == (removed - todo) + {k};
        todo := todo - {k};
        panes := panes - {k};
        DeleteRows(OfPane(rows, r.sessionId, k.pane), Discarded);
      }
      assert removed - todo == removed;
      SweepIs(s, r, agents);
    }

    /** One transaction: the ledger and the queue follow one typed snapshot of one binding. */
    method ReconcileHerdr(r: Reading, agents: seq<HerdrAgent>, ids: seq<string>) returns (found: bool)
      requires |ids| == |agents|
      modifies this`rows, this`fates, this`panes, this`bindings
      ensures found <==> r.key in old(bindings)
      ensures View() == LedgerRuns.Next(old(View()), Snapshot(r, agents, ids))
    {
      if r.key !in bindings {
        return false;
      }
      var previous := bindings[r.key].incarnation;
      if !(bindings[r.key].enabled && adapter) {
        return true;
      }
      var baseline := r.baseline;
      if r.incarnation != previous {
        baseline := true;
        panes := panes - PanesOf(panes, r.key);
        if previous != "" {
          DeleteRows(OfSession(rows, r.sessionId), Discarded);
        }
      }
      bindings := bindings[r.key := bindings[r.key].(incarnation := r.incarnation)];
      ghost var s := View();
      assert s == Rebase(old(View()), r);
      ObserveSnapshot(r.(baseline := baseline), agents, ids);
      SweepRemoved(r, agents);
      return true;
    }

    method ObserveSnapshot(r: Reading, agents: seq<HerdrAgent>, ids: seq<string>)
      requires |ids| == |agents|
      modifies this`rows, this`fates, this`panes
      ensures View() == ObserveAll(old(View()), r, agents, ids)
    {
      var i := 0;
      assert ObserveAll(View(), r, agents[..0], ids[..0]) == View();
      while i < |agents|
        invariant 0 <= i <= |agents|
        invariant View() == ObserveAll(old(View()), r, agents[..i], ids[..i])
      {
        hide Observe, ObserveAll;
        OneAgentMore(old(View()), r, agents, ids, i);
        ObserveAgent(r, agents[i], ids[i]);
        i := i + 1;
      }
      assert agents[..i] == agents && ids[..i] == ids;
    }
  }

  lemma OneAgentMore(s: State, r: Reading, agents: seq<HerdrAgent>, ids: seq<string>, i: nat)
    requires |ids| == |agents| && i < |agents|
    ensures ObserveAll(s, r, agents[..i + 1], ids[..i + 1])
         == Observe(ObserveAll(s, r, agents[..i], ids[..i]), r, agents[i], ids[i])
  {
    hide Observe;
    assert agents[..i + 1][..i] == agents[..i] && ids[..i + 1][..i] == ids[..i];
  }
}
