/** Which queued rows a reconciliation leaves alone, and which it takes. */
module LedgerFrame {
  import opened Options
  import opened HerdrMetadata
  import opened HostEvents
  import opened PendingEvents
  import opened Ledger
  import opened LedgerInvariant
  import opened LedgerRefinement
  import opened LedgerRuns

  /** The row is still there, as it was. */
  ghost predicate Kept(e: Events, f: Events, j: string)
    requires j in e.rows
  {
    j in f.rows && f.rows[j] == e.rows[j]
  }

  /** The row expired or was evicted. */
  ghost predicate Lost(e: Events, f: Events, now: int, j: string)
    requires j in e.rows
  {
    && j !in f.rows && e.rows[j].serial < |f.fates|
    && var fate := f.fates[e.rows[j].serial];
       fate == Evicted || (fate == Expired && e.rows[j].expires <= now)
  }

  /** The hint was of an earlier incarnation, or its pane left the snapshot, changed its terminal or fell
      back in sequence. */
  ghost predicate Outdated(s: State, r: Reading, agents: seq<HerdrAgent>, row: Row)
    requires r.key in s.bindings
  {
    && row.source == Herdr && row.session == r.sessionId
    && (|| (s.bindings[r.key].incarnation != "" && s.bindings[r.key].incarnation != r.incarnation)
        || (row.pane != "" && forall a :: a in agents ==> a.paneId != row.pane)
        || exists a :: a in agents && a.paneId == row.pane && FellBack(s.panes, r.key, a))
  }

  /** The stored pane of the agent has another terminal or a higher sequence. */
  predicate FellBack(panes: Panes, key: string, a: HerdrAgent) {
    var k := PaneKey(key, a.paneId);
    k in panes && (panes[k].terminal != a.terminalId || panes[k].sequence > a.sequence)
  }

  // --- One agent ---

  lemma ObserveFrame(s: State, r: Reading, a: HerdrAgent, id: string, j: string)
    requires Conserved(s.events) && id !in s.events.rows && j in s.events.rows
    requires PaneKey(r.key, a.paneId) in s.panes ==> s.panes[PaneKey(r.key, a.paneId)].terminal != ""
    ensures var row := s.events.rows[j]; var u := Observe(s, r, a, id).events;
      if row.source == Herdr && row.session == r.sessionId && row.pane == a.paneId && FellBack(s.panes, r.key, a)
      then j !in u.rows
      else
        || Kept(s.events, u, j)
        || (Decide(Prior(s.panes, r.key, a), a, r.baseline).send.Some? && Lost(s.events, u, r.now, j))
  {
    hide PaneRow, EnqueueRow, Conserved, Decide;
    var d := Decide(Prior(s.panes, r.key, a), a, r.baseline);
    DecideFacts(Prior(s.panes, r.key, a), a, r.baseline);
    PurgeNeedsPrior(Prior(s.panes, r.key, a), a, r.baseline);
    var gone := OfPane(s.events.rows, r.sessionId, a.paneId);
    var kept := if d.purge then Delete(s.events, gone, Discarded) else s.events;
    DeleteConserves(s.events, gone, Discarded);
    if d.send.Some? {
      var row := PaneRow(s.backend, r, a, d.send.value);
      EnqueueAddsOnly(kept, id, row, r.now);
      if j in kept.rows {
        FateOfLost(kept, id, row, r.now, j);
        InsertKeepsRow(kept, id, row, j);
      }
    }
  }

  lemma PurgeNeedsPrior(prior: Option<Pane>, a: HerdrAgent, baseline: bool)
    ensures Decide(prior, a, baseline).purge ==> prior.Some?
  {
  }

  lemma InsertKeepsRow(e: Events, id: string, row: Row, j: string)
    requires j in e.rows
    ensures j in Insert(e, id, row).rows && Insert(e, id, row).rows[j] == e.rows[j]
  {
  }

  lemma LostForGood(e: Events, f: Events, g: Events, now: int, j: string)
    requires j in e.rows && Lost(e, f, now, j) && FatesFinal(f.fates, g.fates) && j !in g.rows
    ensures Lost(e, g, now, j)
  {
  }

  // --- All agents ---

  /** An agent of the snapshot shows that the row is of an earlier terminal or a later sequence. */
  ghost predicate Purged(panes: Panes, r: Reading, agents: seq<HerdrAgent>, row: Row) {
    && row.source == Herdr && row.session == r.sessionId
    && exists a :: a in agents && a.paneId == row.pane && FellBack(panes, r.key, a)
  }

  ghost predicate Spared(e: Events, f: Events, now: int, quiet: bool, j: string)
    requires j in e.rows
  {
    Kept(e, f, j) || (!quiet && Lost(e, f, now, j))
  }

  lemma PurgedStep(panes: Panes, r: Reading, agents: seq<HerdrAgent>, a: HerdrAgent, row: Row)
    ensures Purged(panes, r, agents + [a], row) <==>
      Purged(panes, r, agents, row)
      || (row.source == Herdr && row.session == r.sessionId && row.pane == a.paneId && FellBack(panes, r.key, a))
  {
    hide FellBack;
    assert forall x :: x in agents + [a] <==> x in agents || x == a;
  }

  lemma OtherPanesLater(s: State, key: string, agents: seq<HerdrAgent>, a: HerdrAgent)
    requires DistinctPanes(agents + [a])
    ensures Prior(StoreAll(s.panes, key, agents), key, a) == Prior(s.panes, key, a)
    ensures FellBack(StoreAll(s.panes, key, agents), key, a) <==> FellBack(s.panes, key, a)
    ensures DistinctPanes(agents)
  {
    var all := agents + [a];
    assert forall i :: 0 <= i < |agents| ==> all[i] == agents[i] && all[i].paneId != all[|agents|].paneId;
    LastOfIsListed(agents, a.paneId);
    StoreAllValue(s.panes, key, agents, PaneKey(key, a.paneId));
  }

  ghost predicate Quiet(panes: Panes, r: Reading, agents: seq<HerdrAgent>) {
    forall i :: 0 <= i < |agents| ==> Emissions(panes, r.key, agents, r.baseline)[i].None?
  }

  lemma QuietStep(panes: Panes, r: Reading, agents: seq<HerdrAgent>, a: HerdrAgent)
    ensures Quiet(panes, r, agents + [a]) <==>
      Quiet(panes, r, agents) && Decide(Prior(StoreAll(panes, r.key, agents), r.key, a), a, r.baseline).send.None?
  {
    hide Decide, StoreAll;
    var all := agents + [a];
    assert all[..|agents|] == agents;
    var before := Emissions(panes, r.key, agents, r.baseline);
    var last := Decide(Prior(StoreAll(panes, r.key, agents), r.key, a), a, r.baseline).send;
    var sends := Emissions(panes, r.key, all, r.baseline);
    assert sends == before + [last];
    assert forall i :: 0 <= i < |agents| ==> sends[i] == before[i];
    assert sends[|agents|] == last;
  }

  ghost predicate Ready(s: State, r: Reading, agents: seq<HerdrAgent>, ids: seq<string>) {
    && |ids| == |agents| && Inv(s) && ReadFrom(r, s) && (forall a :: a in agents ==> CheckedAgent(a))
    && s.bindings[r.key].enabled && s.bindings[r.key].incarnation == r.incarnation
    && DistinctPanes(agents) && FreshIds(s.events.rows, ids)
  }

  lemma ReadyFacts(s: State, r: Reading, agents: seq<HerdrAgent>, ids: seq<string>)
    requires Ready(s, r, agents, ids)
    ensures |ids| == |agents| && DistinctPanes(agents) && FreshIds(s.events.rows, ids)
  {
  }

  /** The state before the last agent, ready for it. */
  lemma BeforeLast(s: State, r: Reading, agents: seq<HerdrAgent>, a: HerdrAgent, ids: seq<string>, id: string)
    requires Ready(s, r, agents + [a], ids + [id])
    ensures Ready(s, r, agents, ids)
    ensures var w := ObserveAll(s, r, agents, ids);
      && w.panes == StoreAll(s.panes, r.key, agents) && id !in w.events.rows && id !in s.events.rows && RowsOk(w.events)
      && (PaneKey(r.key, a.paneId) in w.panes ==> w.panes[PaneKey(r.key, a.paneId)].terminal != "")
  {
    hide Observe, Inv, Emissions, CheckedAgent, ReadFrom, RowsOk;
    OtherPanesLater(s, r.key, agents, a);
    StillFreshIds(s.events.rows, ids, id);
    assert forall x :: x in agents ==> x in agents + [a];
    ObserveAllKeepsInv(s, r, agents, ids);
    EmissionsAreInserted(s, r, agents, ids);
    ObserveAllPanes(s, r, agents, ids);
    InvFacts(ObserveAll(s, r, agents, ids));
  }

  lemma StillFreshIds(t: Table, ids: seq<string>, id: string)
    requires FreshIds(t, ids + [id])
    ensures FreshIds(t, ids) && id !in t && id !in ids
  {
    var all := ids + [id];
    assert all[|ids|] == id && forall i :: 0 <= i < |ids| ==> all[i] == ids[i];
  }

  lemma InvFacts(s: State)
    requires Inv(s)
    ensures RowsOk(s.events) && forall k :: k in s.panes ==> s.panes[k].terminal != ""
  {
  }

  lemma ObserveAllStep(s: State, r: Reading, agents: seq<HerdrAgent>, a: HerdrAgent, ids: seq<string>, id: string)
    requires |ids| == |agents|
    ensures ObserveAll(s, r, agents + [a], ids + [id]) == Observe(ObserveAll(s, r, agents, ids), r, a, id)
  {
    hide Observe;
    assert (agents + [a])[..|agents|] == agents && (ids + [id])[..|ids|] == ids;
  }

  lemma {:induction false} ObserveAllFrame(s: State, r: Reading, agents: seq<HerdrAgent>, ids: seq<string>, j: string)
    requires Ready(s, r, agents, ids) && j in s.events.rows
    ensures var u := ObserveAll(s, r, agents, ids).events;
      if Purged(s.panes, r, agents, s.events.rows[j]) then j !in u.rows
      else Spared(s.events, u, r.now, Quiet(s.panes, r, agents), j)
    decreases |agents|
  {
    hide Observe, Purged, Quiet, Ready, Lost, Kept, FellBack, Decide;
    ReadyFacts(s, r, agents, ids);
    if agents == [] {
      NothingObserved(s, r, agents, j);
    } else {
      var n := |agents| - 1;
      var before, a, earlier, id := agents[..n], agents[n], ids[..n], ids[n];
      assert agents == before + [a] && ids == earlier + [id];
      BeforeLast(s, r, before, a, earlier, id);
      ObserveAllStep(s, r, before, a, earlier, id);
      PurgedStep(s.panes, r, before, a, s.events.rows[j]);
      QuietStep(s.panes, r, before, a);
      OtherPanesLater(s, r.key, before, a);
      ObserveAllFrame(s, r, before, earlier, j);
      OneMoreObserved(s, ObserveAll(s, r, before, earlier), r, before, a, id, j);
    }
  }

  lemma NothingObserved(s: State, r: Reading, agents: seq<HerdrAgent>, j: string)
    requires agents == [] && j in s.events.rows
    ensures !Purged(s.panes, r, agents, s.events.rows[j]) && Kept(s.events, s.events, j)
  {
  }

  lemma OneMoreObserved(s: State, w: State, r: Reading, agents: seq<HerdrAgent>, a: HerdrAgent, id: string, j: string)
    requires j in s.events.rows && id !in s.events.rows && id !in w.events.rows && RowsOk(w.events)
    requires PaneKey(r.key, a.paneId) in w.panes ==> w.panes[PaneKey(r.key, a.paneId)].terminal != ""
    requires FellBack(w.panes, r.key, a) == FellBack(s.panes, r.key, a)
    requires Prior(w.panes, r.key, a) == Prior(s.panes, r.key, a)
    requires if Purged(s.panes, r, agents, s.events.rows[j]) then j !in w.events.rows
             else Spared(s.events, w.events, r.now, Quiet(s.panes, r, agents), j)
    ensures var u := Observe(w, r, a, id).events; var row := s.events.rows[j];
      var quiet := Quiet(s.panes, r, agents) && Decide(Prior(w.panes, r.key, a), a, r.baseline).send.None?;
      if Purged(s.panes, r, agents, row)
         || (row.source == Herdr && row.session == r.sessionId && row.pane == a.paneId && FellBack(s.panes, r.key, a))
      then j !in u.rows
      else Spared(s.events, u, r.now, quiet, j)
  {
    hide Observe, Purged, Quiet, FellBack, Decide, RowsOk;
    RowsAreConserved(w.events);
    ObserveDescends(w, r, a, id);
    ObserveAddsOnly(w, r, a, id);
    DescendsIsFinal(w.events, Observe(w, r, a, id).events);
    if j in w.events.rows {
      ObserveFrame(w, r, a, id, j);
    }
  }

  lemma RowsAreConserved(e: Events)
    requires RowsOk(e)
    ensures Conserved(e)
  {
  }

  lemma DescendsIsFinal(e: Events, f: Events)
    requires Descends(e, f)
    ensures FatesFinal(e.fates, f.fates)
  {
  }

  // --- The whole transaction ---

  lemma RebaseFrame(s: State, r: Reading, j: string)
    requires r.key in s.bindings && j in s.events.rows
    ensures var row := s.events.rows[j]; var was := s.bindings[r.key].incarnation;
      if row.source == Herdr && row.session == r.sessionId && was != "" && was != r.incarnation
      then j !in Rebase(s, r).events.rows
      else Kept(s.events, Rebase(s, r).events, j)
    ensures |Rebase(s, r).events.fates| == |s.events.fates|
  {
  }

  lemma SweepFrame(s: State, r: Reading, agents: seq<HerdrAgent>, j: string)
    requires j in s.events.rows
    ensures var row := s.events.rows[j];
      if row.source == Herdr && row.session == r.sessionId && PaneKey(r.key, row.pane) in s.panes
         && (forall a :: a in agents ==> a.paneId != row.pane)
      then j !in Sweep(s, r, agents).events.rows
      else Kept(s.events, Sweep(s, r, agents).events, j)
  {
    var row, removed := s.events.rows[j], Removed(s.panes, r.key, agents);
    if PaneKey(r.key, row.pane) in s.panes && forall a :: a in agents ==> a.paneId != row.pane {
      assert PaneKey(r.key, row.pane) in removed;
    } else {
      assert forall k :: k in removed ==> k.pane != row.pane by {
        forall k | k in removed
          ensures k.pane != row.pane
        {
          assert k == PaneKey(r.key, k.pane);
        }
      }
    }
  }

  lemma SweepFates(s: State, r: Reading, agents: seq<HerdrAgent>)
    requires Conserved(s.events)
    ensures FatesFinal(s.events.fates, Sweep(s, r, agents).events.fates)
    ensures Sweep(s, r, agents).events.rows.Keys <= s.events.rows.Keys
  {
    DeleteConserves(s.events, OfPanes(s.events.rows, r.sessionId, Removed(s.panes, r.key, agents)), Discarded);
  }

  /** A queued pane event of the binding's session is of a pane of the binding in the ledger. */
  lemma HintHasPane(s: State, r: Reading, j: string)
    requires Inv(s) && ReadFrom(r, s) && j in s.events.rows
    requires s.events.rows[j].source == Herdr && s.events.rows[j].session == r.sessionId && s.events.rows[j].pane != ""
    ensures PaneKey(r.key, s.events.rows[j].pane) in s.panes && s.bindings[r.key].incarnation != ""
  {
    hide RowsOk, BackendOk;
    assert Current(s.events.rows[j], s.bindings, s.panes);
    assert s.events.rows[j].origin.key == r.key;
  }

  lemma NoNamelessPane(s: State, key: string)
    requires Inv(s)
    ensures PaneKey(key, "") !in s.panes
    ensures key in s.bindings && s.bindings[key].incarnation == "" ==> forall k :: k in s.panes ==> k.binding != key
  {
    hide RowsOk, BackendOk, NoStaleHints;
  }

  /** A snapshot as it is read, of distinct panes, under fresh ids. */
  ghost predicate Proper(s: State, r: Reading, agents: seq<HerdrAgent>, ids: seq<string>) {
    && |ids| == |agents| && Inv(s) && ReadFrom(r, s) && Listening(s, r.key)
    && (forall a :: a in agents ==> CheckedAgent(a)) && DistinctPanes(agents) && FreshIds(s.events.rows, ids)
  }

  lemma ProperFacts(s: State, r: Reading, agents: seq<HerdrAgent>, ids: seq<string>)
    requires Proper(s, r, agents, ids)
    ensures |ids| == |agents| && Inv(s) && ReadFrom(r, s) && Listening(s, r.key) && r.key in s.bindings
    ensures DistinctPanes(agents) && FreshIds(s.events.rows, ids)
  {
  }

  lemma RebasedIsReady(s: State, r: Reading, agents: seq<HerdrAgent>, ids: seq<string>)
    requires Proper(s, r, agents, ids)
    ensures Ready(Rebase(s, r), Baselined(s, r), agents, ids)
  {
    hide Inv, Rebase, CheckedAgent, DistinctPanes;
    RebaseKeepsInv(s, r);
    RebaseOnlyRemoves(s, r, agents);
  }

  lemma ObservedFacts(s: State, r: Reading, agents: seq<HerdrAgent>, ids: seq<string>)
    requires Ready(s, r, agents, ids)
    ensures var v := ObserveAll(s, r, agents, ids);
      && Conserved(v.events) && v.panes == StoreAll(s.panes, r.key, agents)
      && v.events.rows.Keys <= s.events.rows.Keys + set id | id in ids
  {
    hide Observe, Inv, RowsOk, CheckedAgent;
    ObserveAllKeepsInv(s, r, agents, ids);
    EmissionsAreInserted(s, r, agents, ids);
    InvFacts(ObserveAll(s, r, agents, ids));
    RowsAreConserved(ObserveAll(s, r, agents, ids).events);
  }

  /** Nothing is sent. */
  ghost predicate SendsNothing(s: State, r: Reading, agents: seq<HerdrAgent>)
    requires r.key in s.bindings
  {
    forall i :: 0 <= i < |agents| ==> Sends(s, r, agents)[i].None?
  }

  lemma QuietIsNothing(s: State, r: Reading, agents: seq<HerdrAgent>)
    requires r.key in s.bindings && DistinctPanes(agents)
    ensures Quiet(Rebase(s, r).panes, Baselined(s, r), agents) <==> SendsNothing(s, r, agents)
  {
    hide Rebase, Emissions, Sends, DistinctPanes;
    EmissionsAreSends(s, r, agents);
  }

  lemma RebasedPanes(s: State, r: Reading)
    requires Inv(s) && r.key in s.bindings
    ensures s.bindings[r.key].incarnation == r.incarnation ==> Rebase(s, r).panes == s.panes
    ensures s.bindings[r.key].incarnation != r.incarnation ==> forall k :: k in Rebase(s, r).panes ==> k.binding != r.key
    ensures s.bindings[r.key].incarnation == "" ==> forall k :: k in s.panes ==> k.binding != r.key
    ensures PaneKey(r.key, "") !in Rebase(s, r).panes
  {
    hide Inv;
    NoNamelessPane(s, r.key);
  }

  /** Of a row that the new incarnation leaves, the loop and the sweep take it exactly if it is outdated. */
  lemma TakenIfOutdated(s: State, r: Reading, agents: seq<HerdrAgent>, row: Row, v: Panes)
    requires Inv(s) && ReadFrom(r, s) && v == StoreAll(Rebase(s, r).panes, r.key, agents)
    requires row.source == Herdr && row.session == r.sessionId && row.pane != "" ==>
      PaneKey(r.key, row.pane) in s.panes && s.bindings[r.key].incarnation != ""
    requires forall a :: a in agents ==> a.paneId != ""
    requires !(row.source == Herdr && row.session == r.sessionId
               && s.bindings[r.key].incarnation != "" && s.bindings[r.key].incarnation != r.incarnation)
    ensures Outdated(s, r, agents, row) <==>
      || Purged(Rebase(s, r).panes, Baselined(s, r), agents, row)
      || (row.source == Herdr && row.session == r.sessionId && PaneKey(r.key, row.pane) in v
          && forall a :: a in agents ==> a.paneId != row.pane)
  {
    hide Inv, Rebase, StoreAll;
    RebasedPanes(s, r);
    StoreAllValue(Rebase(s, r).panes, r.key, agents, PaneKey(r.key, row.pane));
    LastOfIsListed(agents, row.pane);
  }

  lemma HintsHavePanes(s: State, r: Reading, agents: seq<HerdrAgent>, ids: seq<string>, j: string)
    requires Proper(s, r, agents, ids) && j in s.events.rows
    ensures var row := s.events.rows[j];
      row.source == Herdr && row.session == r.sessionId && row.pane != "" ==>
        PaneKey(r.key, row.pane) in s.panes && s.bindings[r.key].incarnation != ""
    ensures forall a :: a in agents ==> a.paneId != ""
  {
    hide Inv, ReadFrom, DistinctPanes, FreshIds;
    var row := s.events.rows[j];
    if row.source == Herdr && row.session == r.sessionId && row.pane != "" {
      HintHasPane(s, r, j);
    }
  }

  /** From the rebased state on. */
  lemma LeftAfterSweep(s: State, u: State, v: State, w: Events, now: int, quiet: bool, j: string)
    requires j in s.events.rows && Kept(s.events, u.events, j) && Spared(u.events, v.events, now, quiet, j)
    requires FatesFinal(v.events.fates, w.fates) && w.rows.Keys <= v.events.rows.Keys
    requires j in v.events.rows ==> Kept(v.events, w, j)
    ensures Spared(s.events, w, now, quiet, j)
  {
  }

  lemma ReconcileIs(s: State, r: Reading, agents: seq<HerdrAgent>, ids: seq<string>)
    requires |ids| == |agents| && Listening(s, r.key)
    ensures Reconcile(s, r, agents, ids) == Sweep(ObserveAll(Rebase(s, r), Baselined(s, r), agents, ids), r, agents)
  {
    hide Sweep, ObserveAll, Rebase;
  }

  /** A reconciliation takes the outdated hints of its session. Every other row, of whatever source and
      session, stays as it is, unless events were sent and it has expired or their passes evicted it. */
  lemma ReconcileFrame(s: State, r: Reading, agents: seq<HerdrAgent>, ids: seq<string>, j: string)
    requires Proper(s, r, agents, ids) && j in s.events.rows
    ensures |ids| == |agents| && r.key in s.bindings
    ensures var u := Reconcile(s, r, agents, ids).events;
      if Outdated(s, r, agents, s.events.rows[j]) then j !in u.rows
      else Kept(s.events, u, j) || (!SendsNothing(s, r, agents) && Lost(s.events, u, r.now, j))
  {
    hide Proper, Ready, Inv, Rebase, Sweep, ObserveAll, ReadFrom, DistinctPanes, FatesFinal, Conserved;
    hide Outdated, Purged, Quiet, SendsNothing, Kept, Lost;
    ProperFacts(s, r, agents, ids);
    ReconcileIs(s, r, agents, ids);
    var u, r' := Rebase(s, r), Baselined(s, r);
    var v := ObserveAll(u, r', agents, ids);
    var w := Sweep(v, r, agents);
    RebasedIsReady(s, r, agents, ids);
    ObservedFacts(u, r', agents, ids);
    RebaseFrame(s, r, j);
    SweepFates(v, r, agents);
    QuietIsNothing(s, r, agents);
    if OfEarlierIncarnation(s, r, s.events.rows[j]) {
      RebasedIsOutdated(s, r, agents, s.events.rows[j]);
      NotAmongFresh(s.events.rows, ids, j);
    } else {
      KeptFacts(s.events, u.events, j);
      HintsHavePanes(s, r, agents, ids, j);
      TakenIfOutdated(s, r, agents, s.events.rows[j], v.panes);
      ObserveAllFrame(u, r', agents, ids, j);
      if j in v.events.rows {
        SweepFrame(v, r, agents, j);
        if !Purged(u.panes, r', agents, s.events.rows[j]) {
          SparedFacts(u.events, v.events, r.now, Quiet(u.panes, r', agents), j);
        }
      }
      if !Outdated(s, r, agents, s.events.rows[j]) {
        LeftAfterSweep(s, u, v, w.events, r.now, Quiet(u.panes, r', agents), j);
      }
    }
  }

  predicate OfEarlierIncarnation(s: State, r: Reading, row: Row)
    requires r.key in s.bindings
  {
    && row.source == Herdr && row.session == r.sessionId
    && s.bindings[r.key].incarnation != "" && s.bindings[r.key].incarnation != r.incarnation
  }

  lemma RebasedIsOutdated(s: State, r: Reading, agents: seq<HerdrAgent>, row: Row)
    requires r.key in s.bindings && OfEarlierIncarnation(s, r, row)
    ensures Outdated(s, r, agents, row)
  {
  }

  lemma NotAmongFresh(t: Table, ids: seq<string>, j: string)
    requires FreshIds(t, ids) && j in t
    ensures j !in set id | id in ids
  {
  }

  lemma KeptFacts(e: Events, f: Events, j: string)
    requires j in e.rows && Kept(e, f, j)
    ensures j in f.rows && f.rows[j] == e.rows[j]
  {
  }

  lemma SparedFacts(e: Events, f: Events, now: int, quiet: bool, j: string)
    requires j in e.rows && Spared(e, f, now, quiet, j) && j in f.rows
    ensures f.rows[j] == e.rows[j]
  {
  }

  /** When nothing is sent, the rows afterwards are exactly those that are not outdated. */
  lemma QuietReconcileIsExact(s: State, r: Reading, agents: seq<HerdrAgent>, ids: seq<string>)
    requires Proper(s, r, agents, ids)
    ensures |ids| == |agents| && r.key in s.bindings
    ensures SendsNothing(s, r, agents) ==>
      Reconcile(s, r, agents, ids).events.rows ==
        map j | j in s.events.rows && !Outdated(s, r, agents, s.events.rows[j]) :: s.events.rows[j]
  {
    hide Proper, Inv, Reconcile, Outdated, SendsNothing, Sends, DistinctPanes;
    ProperFacts(s, r, agents, ids);
    var u := Reconcile(s, r, agents, ids).events.rows;
    if SendsNothing(s, r, agents) {
      forall j | j in s.events.rows
        ensures if Outdated(s, r, agents, s.events.rows[j]) then j !in u else j in u && u[j] == s.events.rows[j]
      {
        ReconcileFrame(s, r, agents, ids, j);
      }
      forall j | j in u
        ensures j in s.events.rows
      {
        var i := ReconcileCarries(s, r, agents, ids, j);
        NoneSentAt(s, r, agents, i);
      }
    }
  }

  lemma NoneSentAt(s: State, r: Reading, agents: seq<HerdrAgent>, i: nat)
    requires r.key in s.bindings && SendsNothing(s, r, agents)
    ensures i < |agents| ==> Sends(s, r, agents)[i].None?
  {
  }
}
