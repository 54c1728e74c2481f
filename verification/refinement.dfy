/** The incremental ledger refines a function of consecutive snapshots. */
module LedgerRefinement {
  import opened Options
  import opened HerdrMetadata
  import opened HostEvents
  import opened PendingEvents
  import opened Ledger
  import opened LedgerInvariant

  // --- The table is the snapshot ---

  function PaneOf(a: HerdrAgent): Pane { Pane(a.terminalId, a.sequence, a.status) }

  /** The last agent a snapshot lists for a pane. */
  function LastOf(agents: seq<HerdrAgent>, pane: string): Option<HerdrAgent> {
    if agents == [] then None
    else if agents[|agents| - 1].paneId == pane then Some(agents[|agents| - 1])
    else LastOf(agents[..|agents| - 1], pane)
  }

  lemma {:induction false} LastOfIsListed(agents: seq<HerdrAgent>, pane: string)
    ensures LastOf(agents, pane).Some? <==> exists a :: a in agents && a.paneId == pane
  {
    if agents != [] {
      LastOfIsListed(agents[..|agents| - 1], pane);
      assert agents == agents[..|agents| - 1] + [agents[|agents| - 1]];
    }
  }

  lemma {:induction false} StoreAllValue(panes: Panes, key: string, agents: seq<HerdrAgent>, k: PaneKey)
    ensures var t := StoreAll(panes, key, agents);
      if k.binding == key && LastOf(agents, k.pane).Some? then k in t && t[k] == PaneOf(LastOf(agents, k.pane).value)
      else (k in t <==> k in panes) && (k in panes ==> t[k] == panes[k])
  {
    if agents != [] {
      StoreAllValue(panes, key, agents[..|agents| - 1], k);
    }
  }

  lemma ObservePanes(s: State, r: Reading, a: HerdrAgent, id: string)
    ensures var u := Observe(s, r, a, id);
      u.panes == Store(s.panes, r.key, a) && u.bindings == s.bindings && u.adapter == s.adapter && u.backend == s.backend
  {
    hide PaneRow, EnqueueRow, Decide;
  }

  lemma {:induction false} ObserveAllPanes(s: State, r: Reading, agents: seq<HerdrAgent>, ids: seq<string>)
    requires |ids| == |agents|
    ensures ObserveAll(s, r, agents, ids).panes == StoreAll(s.panes, r.key, agents)
    ensures ObserveAll(s, r, agents, ids).bindings == s.bindings && ObserveAll(s, r, agents, ids).adapter == s.adapter
    ensures ObserveAll(s, r, agents, ids).backend == s.backend
  {
    hide Observe;
    if agents != [] {
      var n := |agents| - 1;
      ObserveAllPanes(s, r, agents[..n], ids[..n]);
      ObservePanes(ObserveAll(s, r, agents[..n], ids[..n]), r, agents[n], ids[n]);
    }
  }

  /** After a reconciliation the panes of the binding are exactly the snapshot, the last mention of a
      pane counting; the panes of every other binding are untouched. */
  lemma LedgerIsSnapshot(s: State, r: Reading, agents: seq<HerdrAgent>, ids: seq<string>, k: PaneKey)
    requires |ids| == |agents| && Listening(s, r.key)
    ensures var t := Reconcile(s, r, agents, ids).panes;
      if k.binding == r.key then
        (k in t <==> LastOf(agents, k.pane).Some?) && (k in t ==> t[k] == PaneOf(LastOf(agents, k.pane).value))
      else (k in t <==> k in s.panes) && (k in t ==> t[k] == s.panes[k])
  {
    var u := Rebase(s, r);
    ObserveAllPanes(u, Baselined(s, r), agents, ids);
    StoreAllValue(u.panes, r.key, agents, k);
    LastOfIsListed(agents, k.pane);
  }

  // --- Emissions ---

  /** What the loop sends for each agent, reading the ledger as it is updated. */
  function Emissions(panes: Panes, key: string, agents: seq<HerdrAgent>, baseline: bool): (sends: seq<Option<EventType>>)
    ensures |sends| == |agents|
  {
    if agents == [] then []
    else
      var before, a := agents[..|agents| - 1], agents[|agents| - 1];
      Emissions(panes, key, before, baseline) + [Decide(Prior(StoreAll(panes, key, before), key, a), a, baseline).send]
  }

  /** The same from the previous snapshot only. */
  function PureEmissions(panes: Panes, key: string, agents: seq<HerdrAgent>, baseline: bool): (sends: seq<Option<EventType>>)
    ensures |sends| == |agents|
  {
    seq(|agents|, i requires 0 <= i < |agents| => Decide(Prior(panes, key, agents[i]), agents[i], baseline).send)
  }

  ghost predicate DistinctPanes(agents: seq<HerdrAgent>) {
    forall i, j :: 0 <= i < j < |agents| ==> agents[i].paneId != agents[j].paneId
  }

  /** When no pane is listed twice, what is sent is a function of consecutive snapshots. */
  lemma {:induction false} EmissionsArePure(panes: Panes, key: string, agents: seq<HerdrAgent>, baseline: bool)
    requires DistinctPanes(agents)
    ensures Emissions(panes, key, agents, baseline) == PureEmissions(panes, key, agents, baseline)
  {
    if agents != [] {
      var before, a := agents[..|agents| - 1], agents[|agents| - 1];
      EmissionsArePure(panes, key, before, baseline);
      LastOfIsListed(before, a.paneId);
      StoreAllValue(panes, key, before, PaneKey(key, a.paneId));
    }
  }

  function Count(sends: seq<Option<EventType>>): nat {
    if sends == [] then 0 else Count(sends[..|sends| - 1]) + if sends[|sends| - 1].Some? then 1 else 0
  }

  ghost predicate FreshIds(t: Table, ids: seq<string>) {
    (forall i :: 0 <= i < |ids| ==> ids[i] !in t) && forall i, j :: 0 <= i < j < |ids| ==> ids[i] != ids[j]
  }

  lemma PassesOnlyRemove(e: Events, session: string, now: int)
    ensures Passes(e, session, now).rows.Keys <= e.rows.Keys && |Passes(e, session, now).fates| == |e.fates|
  {
  }

  lemma ObserveCounts(s: State, r: Reading, a: HerdrAgent, id: string)
    requires id !in s.events.rows
    ensures var u, sent := Observe(s, r, a, id), Decide(Prior(s.panes, r.key, a), a, r.baseline).send;
      && |u.events.fates| == |s.events.fates| + (if sent.Some? then 1 else 0)
      && u.events.rows.Keys <= s.events.rows.Keys + {id}
  {
    var d := Decide(Prior(s.panes, r.key, a), a, r.baseline);
    hide PaneRow, Passes, Decide;
    var row := PaneRow(s.backend, r, a, if d.send.Some? then d.send.value else OtherType);
    var kept := if d.purge then Delete(s.events, OfPane(s.events.rows, r.sessionId, a.paneId), Discarded) else s.events;
    PassesOnlyRemove(Insert(kept, id, row), row.session, r.now);
  }

  /** Exactly the emissions are inserted. */
  lemma {:induction false} EmissionsAreInserted(s: State, r: Reading, agents: seq<HerdrAgent>, ids: seq<string>)
    requires |ids| == |agents| && FreshIds(s.events.rows, ids)
    ensures var u := ObserveAll(s, r, agents, ids);
      && |u.events.fates| == |s.events.fates| + Count(Emissions(s.panes, r.key, agents, r.baseline))
      && u.events.rows.Keys <= s.events.rows.Keys + set id | id in ids
  {
    if agents != [] {
      hide Observe, Decide, StoreAll;
      var n := |agents| - 1;
      var sends := Emissions(s.panes, r.key, agents, r.baseline);
      EmissionsAreInserted(s, r, agents[..n], ids[..n]);
      var u := ObserveAll(s, r, agents[..n], ids[..n]);
      assert ids[n] !in ids[..n];
      ObserveAllPanes(s, r, agents[..n], ids[..n]);
      ObserveCounts(u, r, agents[n], ids[n]);
      assert sends[..n] == Emissions(s.panes, r.key, agents[..n], r.baseline);
      assert Count(sends) == Count(sends[..n]) + if sends[n].Some? then 1 else 0;
    }
  }

  lemma ObserveAddsOnly(s: State, r: Reading, a: HerdrAgent, id: string)
    requires id !in s.events.rows
    ensures var u := Observe(s, r, a, id).events.rows; var sent := Decide(Prior(s.panes, r.key, a), a, r.baseline).send;
      forall j :: j in u ==>
        || (j == id && sent.Some? && InsertedAs(u[id], PaneRow(s.backend, r, a, sent.value)))
        || (j != id && j in s.events.rows && u[j] == s.events.rows[j])
  {
    hide PaneRow, Decide, EnqueueRow, InsertedAs;
    var d := Decide(Prior(s.panes, r.key, a), a, r.baseline);
    var kept := if d.purge then Delete(s.events, OfPane(s.events.rows, r.sessionId, a.paneId), Discarded) else s.events;
    if d.send.Some? {
      EnqueueAddsOnly(kept, id, PaneRow(s.backend, r, a, d.send.value), r.now);
    }
  }

  /** Row j is that of the event emitted for agent i. */
  predicate Carries(s: State, r: Reading, agents: seq<HerdrAgent>, ids: seq<string>, i: nat, j: string, row: Row)
    requires |ids| == |agents|
  {
    i < |ids| && ids[i] == j &&
    var sent := Emissions(s.panes, r.key, agents, r.baseline)[i];
    sent.Some? && InsertedAs(row, PaneRow(s.backend, r, agents[i], sent.value))
  }

  lemma CarriesLonger(s: State, r: Reading, agents: seq<HerdrAgent>, ids: seq<string>, i: nat, j: string, row: Row)
    requires |ids| == |agents| > 0
    ensures var n := |agents| - 1;
      Carries(s, r, agents[..n], ids[..n], i, j, row) ==> Carries(s, r, agents, ids, i, j, row)
  {
    hide Decide, StoreAll, InsertedAs, PaneRow;
    var n := |agents| - 1;
    assert Emissions(s.panes, r.key, agents, r.baseline)[..n] == Emissions(s.panes, r.key, agents[..n], r.baseline);
  }

  lemma LastCarries(s: State, u: State, r: Reading, agents: seq<HerdrAgent>, ids: seq<string>, row: Row)
    requires |ids| == |agents| > 0
    requires var n := |agents| - 1;
      u.panes == StoreAll(s.panes, r.key, agents[..n]) && u.backend == s.backend
    ensures var n := |agents| - 1; var sent := Decide(Prior(u.panes, r.key, agents[n]), agents[n], r.baseline).send;
      sent.Some? && InsertedAs(row, PaneRow(u.backend, r, agents[n], sent.value)) ==>
        Carries(s, r, agents, ids, n, ids[n], row)
  {
    hide Decide, InsertedAs, PaneRow;
  }

  /** Under the id of an agent nothing is ever queued but the event emitted for it, and every other
      queued row was there before. */
  lemma {:induction false} EmissionsCarryTheirEvents(s: State, r: Reading, agents: seq<HerdrAgent>, ids: seq<string>, j: string)
    returns (i: nat)
    requires |ids| == |agents| && FreshIds(s.events.rows, ids) && j in ObserveAll(s, r, agents, ids).events.rows
    ensures var row := ObserveAll(s, r, agents, ids).events.rows[j];
      (j in s.events.rows && row == s.events.rows[j]) || Carries(s, r, agents, ids, i, j, row)
    decreases |agents|
  {
    hide Observe, Decide, StoreAll, InsertedAs, PaneRow, Carries, Emissions;
    i := 0;
    if agents != [] {
      var n := |agents| - 1;
      var u := ObserveAll(s, r, agents[..n], ids[..n]);
      var row := ObserveAll(s, r, agents, ids).events.rows[j];
      EmissionsAreInserted(s, r, agents[..n], ids[..n]);
      assert ids[n] !in ids[..n];
      ObserveAllPanes(s, r, agents[..n], ids[..n]);
      ObserveAddsOnly(u, r, agents[n], ids[n]);
      if j == ids[n] {
        i := n;
        LastCarries(s, u, r, agents, ids, row);
      } else {
        i := EmissionsCarryTheirEvents(s, r, agents[..n], ids[..n], j);
        CarriesLonger(s, r, agents, ids, i, j, row);
      }
    }
  }

  lemma {:induction false} BaselineIsSilent(panes: Panes, key: string, agents: seq<HerdrAgent>)
    ensures forall i :: 0 <= i < |agents| ==> Emissions(panes, key, agents, true)[i].None?
    ensures Count(Emissions(panes, key, agents, true)) == 0
  {
    if agents != [] {
      BaselineIsSilent(panes, key, agents[..|agents| - 1]);
    }
  }

  /** What a reconciliation sends: nothing at a baseline or in a new incarnation, else a function of the
      ledger and the snapshot. */
  function Sends(s: State, r: Reading, agents: seq<HerdrAgent>): (sends: seq<Option<EventType>>)
    requires r.key in s.bindings
    ensures |sends| == |agents|
  {
    if r.baseline || r.incarnation != s.bindings[r.key].incarnation then seq(|agents|, i => None)
    else PureEmissions(s.panes, r.key, agents, false)
  }

  lemma {:induction false} NoneSent(sends: seq<Option<EventType>>)
    requires forall i :: 0 <= i < |sends| ==> sends[i].None?
    ensures Count(sends) == 0
  {
    if sends != [] {
      NoneSent(sends[..|sends| - 1]);
    }
  }

  lemma EmissionsAreSends(s: State, r: Reading, agents: seq<HerdrAgent>)
    requires r.key in s.bindings && DistinctPanes(agents)
    ensures Emissions(Rebase(s, r).panes, r.key, agents, Baselined(s, r).baseline) == Sends(s, r, agents)
  {
    hide Emissions, PureEmissions, DistinctPanes;
    if Baselined(s, r).baseline {
      BaselineIsSilent(Rebase(s, r).panes, r.key, agents);
    } else {
      EmissionsArePure(s.panes, r.key, agents, false);
    }
  }

  lemma RebaseOnlyRemoves(s: State, r: Reading, agents: seq<HerdrAgent>)
    requires r.key in s.bindings
    ensures PartOf(Rebase(s, r).events.rows, s.events.rows) && PartOf(Sweep(s, r, agents).events.rows, s.events.rows)
    ensures |Rebase(s, r).events.fates| == |Sweep(s, r, agents).events.fates| == |s.events.fates|
    ensures Rebase(s, r).backend == s.backend
  {
  }

  /** Exactly that many events are inserted by the whole transaction. */
  lemma ReconcileEmits(s: State, r: Reading, agents: seq<HerdrAgent>, ids: seq<string>)
    requires |ids| == |agents| && DistinctPanes(agents) && FreshIds(s.events.rows, ids) && r.key in s.bindings
    ensures |Reconcile(s, r, agents, ids).events.fates| ==
      |s.events.fates| + if Listening(s, r.key) then Count(Sends(s, r, agents)) else 0
  {
    hide ObserveAll, Rebase, Sweep, Sends, Emissions, DistinctPanes;
    if Listening(s, r.key) {
      var u, r' := Rebase(s, r), Baselined(s, r);
      RebaseOnlyRemoves(s, r, agents);
      EmissionsAreInserted(u, r', agents, ids);
      EmissionsAreSends(s, r, agents);
      ReconcileKeepsBinding(s, r, agents, ids);
      RebaseOnlyRemoves(ObserveAll(u, r', agents, ids), r, agents);
    }
  }

  lemma ReconcileKeepsBinding(s: State, r: Reading, agents: seq<HerdrAgent>, ids: seq<string>)
    requires |ids| == |agents| && r.key in s.bindings
    ensures r.key in ObserveAll(Rebase(s, r), Baselined(s, r), agents, ids).bindings
  {
    ObserveAllPanes(Rebase(s, r), Baselined(s, r), agents, ids);
  }

  /** And every row it adds is that of the event sent for its agent. */
  lemma ReconcileCarries(s: State, r: Reading, agents: seq<HerdrAgent>, ids: seq<string>, j: string) returns (i: nat)
    requires |ids| == |agents| && DistinctPanes(agents) && FreshIds(s.events.rows, ids) && Listening(s, r.key)
    requires j in Reconcile(s, r, agents, ids).events.rows
    ensures var row := Reconcile(s, r, agents, ids).events.rows[j];
      || (j in s.events.rows && row == s.events.rows[j])
      || (i < |ids| && ids[i] == j && Sends(s, r, agents)[i].Some?
          && InsertedAs(row, PaneRow(s.backend, r, agents[i], Sends(s, r, agents)[i].value)))
  {
    hide ObserveAll, Rebase, Sweep, Sends, Emissions, DistinctPanes, PaneRow, InsertedAs;
    var u, r' := Rebase(s, r), Baselined(s, r);
    RebaseOnlyRemoves(s, r, agents);
    ReconcileKeepsBinding(s, r, agents, ids);
    RebaseOnlyRemoves(ObserveAll(u, r', agents, ids), r, agents);
    i := EmissionsCarryTheirEvents(u, r', agents, ids, j);
    EmissionsAreSends(s, r, agents);
    if i < |ids| && Sends(s, r, agents)[i].Some? {
      SameRowAtBaseline(s.backend, r, r', agents[i], Sends(s, r, agents)[i].value);
    }
  }

  lemma SameRowAtBaseline(backend: Option<string>, r: Reading, r': Reading, a: HerdrAgent, kind: EventType)
    requires r' == r.(baseline := r'.baseline)
    ensures PaneRow(backend, r', a, kind) == PaneRow(backend, r, a, kind)
  {
    hide NewRow;
  }

  // --- Replay ---

  lemma NothingDeleted(e: Events, why: Fate)
    ensures Delete(e, {}, why) == e
  {
  }

  lemma ObservedAgain(s: State, r: Reading, a: HerdrAgent, id: string)
    requires Prior(s.panes, r.key, a) == Some(PaneOf(a))
    ensures Observe(s, r, a, id) == s
  {
    hide PaneRow;
  }

  lemma {:induction false} AllObservedAgain(s: State, r: Reading, agents: seq<HerdrAgent>, ids: seq<string>)
    requires |ids| == |agents| && forall a :: a in agents ==> Prior(s.panes, r.key, a) == Some(PaneOf(a))
    ensures ObserveAll(s, r, agents, ids) == s
  {
    if agents != [] {
      hide Observe;
      var n := |agents| - 1;
      AllObservedAgain(s, r, agents[..n], ids[..n]);
      ObservedAgain(s, r, agents[n], ids[n]);
    }
  }

  lemma {:induction false} LastOfDistinct(agents: seq<HerdrAgent>, a: HerdrAgent)
    requires DistinctPanes(agents) && a in agents
    ensures LastOf(agents, a.paneId) == Some(a)
  {
    var n := |agents| - 1;
    if agents[n] != a {
      assert a in agents[..n];
      LastOfDistinct(agents[..n], a);
    }
  }

  lemma SettledReconcile(u: State, r: Reading, agents: seq<HerdrAgent>, ids: seq<string>)
    requires |ids| == |agents| && Listening(u, r.key) && u.bindings[r.key].incarnation == r.incarnation
    requires forall a :: a in agents ==> Prior(u.panes, r.key, a) == Some(PaneOf(a))
    requires Removed(u.panes, r.key, agents) == {}
    ensures Reconcile(u, r, agents, ids) == u
  {
    hide ObserveAll;
    assert Rebase(u, r) == u;
    AllObservedAgain(u, Baselined(u, r), agents, ids);
    assert OfPanes(u.events.rows, r.sessionId, {}) == {};
    NothingDeleted(u.events, Discarded);
  }

  lemma ReconcileKeepsListening(s: State, r: Reading, agents: seq<HerdrAgent>, ids: seq<string>)
    requires |ids| == |agents|
    ensures var u := Reconcile(s, r, agents, ids);
      && u.adapter == s.adapter && u.backend == s.backend
      && u.bindings == if Listening(s, r.key) then Rebase(s, r).bindings else s.bindings
  {
    if Listening(s, r.key) {
      ObserveAllPanes(Rebase(s, r), Baselined(s, r), agents, ids);
    }
  }

  /** Reconciling the same snapshot again, any number of times and whatever the baseline flag,
      sends nothing and changes nothing. */
  lemma ReplayIsSilent(s: State, r: Reading, again: Reading, agents: seq<HerdrAgent>, ids: seq<string>, ids': seq<string>)
    requires |ids| == |agents| == |ids'| && DistinctPanes(agents)
    requires again.key == r.key && again.incarnation == r.incarnation
    ensures var u := Reconcile(s, r, agents, ids); Reconcile(u, again, agents, ids') == u
  {
    if Listening(s, r.key) {
      var u := Reconcile(s, r, agents, ids);
      ReconcileKeepsListening(s, r, agents, ids);
      hide Reconcile;
      forall a | a in agents
        ensures Prior(u.panes, r.key, a) == Some(PaneOf(a))
      {
        LedgerIsSnapshot(s, r, agents, ids, PaneKey(r.key, a.paneId));
        LastOfDistinct(agents, a);
      }
      forall k
        ensures k !in Removed(u.panes, r.key, agents)
      {
        LedgerIsSnapshot(s, r, agents, ids, k);
        LastOfIsListed(agents, k.pane);
      }
      SettledReconcile(u, again, agents, ids');
    } else {
      assert Reconcile(s, r, agents, ids) == s;
    }
  }

  function PaneIds(agents: seq<HerdrAgent>): seq<string> {
    seq(|agents|, i requires 0 <= i < |agents| => agents[i].paneId)
  }

  /** A snapshot in which only agent j is blocked, one sequence above all others. */
  function OnlyBlocked(panes: seq<string>, j: nat): seq<HerdrAgent> {
    seq(|panes|, i => HerdrAgent("t", if 0 <= i < |panes| then panes[i] else "", "a", if i == j then Blocked else Idle,
                                 if i == j then 2 else 1, None, false, "", "", "", map[], None))
  }

  lemma {:induction false} EmissionAt(panes: Panes, key: string, agents: seq<HerdrAgent>, baseline: bool, j: nat)
    requires j < |agents|
    ensures Emissions(panes, key, agents, baseline)[j]
         == Decide(Prior(StoreAll(panes, key, agents[..j]), key, agents[j]), agents[j], baseline).send
  {
    var n := |agents| - 1;
    if j < n {
      EmissionAt(panes, key, agents[..n], baseline, j);
      assert agents[..n][..j] == agents[..j];
    }
  }

  lemma {:induction false} LastOfSomeEarlier(agents: seq<HerdrAgent>, i: nat)
    requires i < |agents|
    ensures var last := LastOf(agents, agents[i].paneId); last.Some? && last.value in agents
  {
    var n := |agents| - 1;
    if i < n && agents[n].paneId != agents[i].paneId {
      LastOfSomeEarlier(agents[..n], i);
    }
  }

  /** Whatever the ledger, the loop announces the blocked agent listed under a pane already seen. */
  lemma DuplicateIsSent(ledger: Panes, panes: seq<string>, key: string, i: nat, j: nat)
    requires i < j < |panes| && panes[i] == panes[j]
    ensures Emissions(ledger, key, OnlyBlocked(panes, j), false)[j] == Some(AttentionRequired)
  {
    var agents := OnlyBlocked(panes, j);
    EmissionAt(ledger, key, agents, false, j);
    LastOfSomeEarlier(agents[..j], i);
    StoreAllValue(ledger, key, agents[..j], PaneKey(key, panes[j]));
  }

  lemma {:induction false} OneSent(sends: seq<Option<EventType>>, j: nat)
    requires j < |sends| && sends[j].Some?
    ensures Count(sends) > 0
  {
    if j < |sends| - 1 {
      OneSent(sends[..|sends| - 1], j);
    }
  }

  /** A second pass over the same snapshot inserts nothing. */
  ghost predicate SecondPassIsSilent(s: State, r: Reading, again: Reading, agents: seq<HerdrAgent>,
    ids: seq<string>, ids': seq<string>)
    requires |ids| == |agents| == |ids'|
  {
    var u := Reconcile(s, r, agents, ids);
    |Reconcile(u, again, agents, ids').events.fates| == |u.events.fates|
  }

  lemma DuplicateIsInsertedAgain(s: State, r: Reading, again: Reading, panes: seq<string>, i: nat, j: nat,
    ids: seq<string>, ids': seq<string>)
    requires |ids| == |panes| == |ids'| && i < j < |panes| && panes[i] == panes[j]
    requires Listening(s, r.key) && FreshIds(s.events.rows, ids + ids')
    requires again.key == r.key && again.incarnation == r.incarnation && !again.baseline
    ensures !SecondPassIsSilent(s, r, again, OnlyBlocked(panes, j), ids, ids')
  {
    hide ObserveAll, Rebase, Sweep, Emissions, Reconcile, OnlyBlocked;
    var agents := OnlyBlocked(panes, j);
    OnlyBlockedLength(panes, j);
    var u := Reconcile(s, r, agents, ids);
    StillListening(s, r, again, agents, ids);
    ReconcileAdds(s, r, agents, ids, ids');
    var v := Rebase(u, again);
    RebaseOnlyRemoves(u, again, agents);
    EmissionsAreInserted(v, again, agents, ids');
    DuplicateIsSent(v.panes, panes, r.key, i, j);
    OneSent(Emissions(v.panes, r.key, agents, false), j);
    ReconcileIsSwept(u, again, agents, ids');
  }

  lemma OnlyBlockedLength(panes: seq<string>, j: nat)
    ensures |OnlyBlocked(panes, j)| == |panes| && PaneIds(OnlyBlocked(panes, j)) == panes
  {
  }

  lemma StillListening(s: State, r: Reading, again: Reading, agents: seq<HerdrAgent>, ids: seq<string>)
    requires |ids| == |agents| && Listening(s, r.key) && again.key == r.key && again.incarnation == r.incarnation
    ensures var u := Reconcile(s, r, agents, ids);
      Listening(u, r.key) && Baselined(u, again) == again
  {
    ReconcileKeepsListening(s, r, agents, ids);
  }

  lemma ReconcileIsSwept(s: State, r: Reading, agents: seq<HerdrAgent>, ids: seq<string>)
    requires |ids| == |agents| && Listening(s, r.key)
    ensures |Reconcile(s, r, agents, ids).events.fates| == |ObserveAll(Rebase(s, r), Baselined(s, r), agents, ids).events.fates|
  {
    hide ObserveAll, Rebase;
  }

  /** Ids still unused after the first pass. */
  lemma ReconcileAdds(s: State, r: Reading, agents: seq<HerdrAgent>, ids: seq<string>, ids': seq<string>)
    requires |ids| == |agents| == |ids'| && Listening(s, r.key) && FreshIds(s.events.rows, ids + ids')
    ensures FreshIds(Reconcile(s, r, agents, ids).events.rows, ids')
    ensures FreshIds(s.events.rows, ids)
  {
    hide ObserveAll, Rebase, Sweep, Emissions;
    assert forall i :: 0 <= i < |ids| ==> (ids + ids')[i] == ids[i];
    assert forall i :: 0 <= i < |ids'| ==> (ids + ids')[|ids| + i] == ids'[i];
    RebaseOnlyRemoves(s, r, agents);
    EmissionsAreInserted(Rebase(s, r), Baselined(s, r), agents, ids);
    ReconcileKeepsBinding(s, r, agents, ids);
    RebaseOnlyRemoves(ObserveAll(Rebase(s, r), Baselined(s, r), agents, ids), r, agents);
  }

  /** Distinct pane ids are exactly what replay silence needs: ReadHerdrAgents does not check it, and for
      every list of ids with a repetition there is a snapshot of which every later pass queues an event. */
  lemma ReplaySilenceNeedsDistinctPanes(s: State, r: Reading, again: Reading, panes: seq<string>,
    ids: seq<string>, ids': seq<string>)
    requires |ids| == |panes| == |ids'| && Listening(s, r.key) && FreshIds(s.events.rows, ids + ids')
    requires again.key == r.key && again.incarnation == r.incarnation && !again.baseline
    ensures (forall i, j :: 0 <= i < j < |panes| ==> panes[i] != panes[j]) <==>
            (forall agents: seq<HerdrAgent> :: PaneIds(agents) == panes ==>
               SecondPassIsSilent(s, r, again, agents, ids, ids'))
  {
    hide SecondPassIsSilent, OnlyBlocked;
    if i, j :| 0 <= i < j < |panes| && panes[i] == panes[j] {
      OnlyBlockedLength(panes, j);
      DuplicateIsInsertedAgain(s, r, again, panes, i, j, ids, ids');
    } else {
      forall agents: seq<HerdrAgent> | PaneIds(agents) == panes
        ensures SecondPassIsSilent(s, r, again, agents, ids, ids')
      {
        assert forall i :: 0 <= i < |agents| ==> agents[i].paneId == panes[i];
        SilentSecondPass(s, r, again, agents, ids, ids');
      }
    }
  }

  lemma SilentSecondPass(s: State, r: Reading, again: Reading, agents: seq<HerdrAgent>, ids: seq<string>, ids': seq<string>)
    requires |ids| == |agents| == |ids'| && DistinctPanes(agents)
    requires again.key == r.key && again.incarnation == r.incarnation
    ensures SecondPassIsSilent(s, r, again, agents, ids, ids')
  {
    hide Reconcile;
    ReplayIsSilent(s, r, again, agents, ids, ids');
  }
}
