/** The Herdr ledger: bindings, panes, and the reconciliation of one snapshot as a function. */
module Ledger {
  import opened Options
  import opened HerdrMetadata
  import opened HostEvents
  import opened PendingEvents

  const MAX_BINDINGS := 128

  datatype Pane = Pane(terminal: string, sequence: nat, status: Status)
  datatype PaneKey = PaneKey(binding: string, pane: string)
  type Panes = map<PaneKey, Pane>
  /** displayName stands for the socket path: it is the name derived from it. */
  datatype Binding = Binding(sessionId: string, displayName: string, incarnation: string, enabled: bool)
  datatype State = State(
    events: Events, backend: Option<string>, adapter: bool, bindings: map<string, Binding>, panes: Panes)

  /** COALESCE((SELECT endpoint FROM queue_backend), '') */
  function CurrentBackend(backend: Option<string>): string { if backend.Some? then backend.value else "" }

  ghost function Enqueue(s: State, id: string, body: Body, now: int): State {
    s.(events := EnqueueRow(s.events, id, NewRow(body, now, CurrentBackend(s.backend), External), now))
  }

  // --- Bindings and consent ---

  /** The new state and the binding returned, if any; newId is the random session id of a new binding. */
  function Bind(s: State, key: string, displayName: string, newId: string): (State, Option<Binding>) {
    if key in s.bindings then
      if s.adapter then
        var b := s.bindings[key].(enabled := true);
        (s.(bindings := s.bindings[key := b]), Some(b))
      else (s, None)
    else if |s.bindings| < MAX_BINDINGS && s.adapter then
      var b := Binding(newId, displayName, "", true);
      (s.(bindings := s.bindings[key := b]), Some(b))
    else (s, None)
  }

  function HerdrRows(t: Table): set<string> { set id | id in t && t[id].source == Herdr }

  function Disabled(bindings: map<string, Binding>): map<string, Binding> {
    map key | key in bindings :: bindings[key].(enabled := false)
  }

  function SetCapture(s: State, enabled: bool): State {
    if enabled then s.(adapter := true)
    else State(Delete(s.events, HerdrRows(s.events.rows), Discarded), s.backend, false, Disabled(s.bindings), map[])
  }

  // --- One observation ---

  datatype Decision = Decision(send: Option<EventType>, purge: bool)

  /** First observation of a pane, of a terminal in it, or of a sequence that went back. */
  predicate Initial(prior: Option<Pane>, a: HerdrAgent) {
    prior.None? || prior.value.terminal != a.terminalId || a.sequence < prior.value.sequence
  }

  function Completed(prior: Pane, a: HerdrAgent): bool {
    if a.completionSupported then a.completionSequence == Some(a.sequence) else prior.status == Working
  }

  /** What one agent of a snapshot causes, given the ledger row of its pane. */
  function Decide(prior: Option<Pane>, a: HerdrAgent, baseline: bool): Decision {
    var send :=
      if baseline || Initial(prior, a) || a.agent == "" || a.sequence <= prior.value.sequence then None
      else if Completed(prior.value, a) && (a.status == Idle || a.status == Done) then Some(ProgressUpdated)
      else if a.status == Blocked && prior.value.status != Blocked then Some(AttentionRequired)
      else None;
    Decision(send, Initial(prior, a) && prior.Some? && prior.value.terminal != "")
  }

  function Prior(panes: Panes, key: string, a: HerdrAgent): Option<Pane> {
    if PaneKey(key, a.paneId) in panes then Some(panes[PaneKey(key, a.paneId)]) else None
  }

  function Store(panes: Panes, key: string, a: HerdrAgent): Panes {
    panes[PaneKey(key, a.paneId) := Pane(a.terminalId, a.sequence, a.status)]
  }

  function StoreAll(panes: Panes, key: string, agents: seq<HerdrAgent>): Panes {
    if agents == [] then panes
    else Store(StoreAll(panes, key, agents[..|agents| - 1]), key, agents[|agents| - 1])
  }

  // --- One reconciliation ---

  /** One read of one binding: the identity it was read under, and when it is committed. */
  datatype Reading = Reading(key: string, sessionId: string, displayName: string, incarnation: string, baseline: bool, now: int)

  function OfSession(t: Table, session: string): set<string> {
    set id | id in t && t[id].source == Herdr && t[id].session == session
  }

  function OfPane(t: Table, session: string, pane: string): set<string> {
    set id | id in t && t[id].source == Herdr && t[id].session == session && t[id].pane == pane
  }

  function PanesOf(panes: Panes, key: string): set<PaneKey> { set k | k in panes && k.binding == key }

  /** A new incarnation forgets the panes and, unless it is the first, the queued hints. */
  function Rebase(s: State, r: Reading): State
    requires r.key in s.bindings
  {
    var previous := s.bindings[r.key].incarnation;
    var panes := if r.incarnation != previous then s.panes - PanesOf(s.panes, r.key) else s.panes;
    var events := if r.incarnation != previous && previous != ""
      then Delete(s.events, OfSession(s.events.rows, r.sessionId), Discarded) else s.events;
    s.(events := events, panes := panes,
       bindings := s.bindings[r.key := s.bindings[r.key].(incarnation := r.incarnation)])
  }

  function Baselined(s: State, r: Reading): Reading
    requires r.key in s.bindings
  {
    r.(baseline := r.baseline || r.incarnation != s.bindings[r.key].incarnation)
  }

  /** The row queued for one agent. */
  function PaneRow(backend: Option<string>, r: Reading, a: HerdrAgent, kind: EventType): Row {
    NewRow(Parsed(PaneEvent(a, kind, r.sessionId, r.displayName, r.now)), r.now, CurrentBackend(backend),
           FromPane(r.key, r.incarnation, a.terminalId, a.sequence))
  }

  ghost function ObserveRow(s: State, r: Reading, a: HerdrAgent, d: Decision, id: string, row: Row): State {
    var kept := if d.purge then Delete(s.events, OfPane(s.events.rows, r.sessionId, a.paneId), Discarded) else s.events;
    var events := if d.send.Some? then EnqueueRow(kept, id, row, r.now) else kept;
    s.(events := events, panes := Store(s.panes, r.key, a))
  }

  ghost function Observe(s: State, r: Reading, a: HerdrAgent, id: string): State {
    var d := Decide(Prior(s.panes, r.key, a), a, r.baseline);
    ObserveRow(s, r, a, d, id, PaneRow(s.backend, r, a, if d.send.Some? then d.send.value else OtherType))
  }

  /** ids[i] is the random id of the event of agent i, should it cause one. */
  ghost function ObserveAll(s: State, r: Reading, agents: seq<HerdrAgent>, ids: seq<string>): State
    requires |ids| == |agents|
  {
    if agents == [] then s
    else
      var n := |agents| - 1;
      Observe(ObserveAll(s, r, agents[..n], ids[..n]), r, agents[n], ids[n])
  }

  function Removed(panes: Panes, key: string, agents: seq<HerdrAgent>): set<PaneKey> {
    set k | k in panes && k.binding == key && forall a :: a in agents ==> a.paneId != k.pane
  }

  function OfPanes(t: Table, session: string, removed: set<PaneKey>): (ids: set<string>)
    ensures ids <= t.Keys
  {
    set id | id in t && t[id].source == Herdr && t[id].session == session && exists k :: k in removed && k.pane == t[id].pane
  }

  /** Panes no longer in the snapshot go, and their queued hints with them. */
  function Sweep(s: State, r: Reading, agents: seq<HerdrAgent>): State {
    var removed := Removed(s.panes, r.key, agents);
    s.(events := Delete(s.events, OfPanes(s.events.rows, r.sessionId, removed), Discarded), panes := s.panes - removed)
  }

  predicate Listening(s: State, key: string) { key in s.bindings && s.bindings[key].enabled && s.adapter }

  ghost function Reconcile(s: State, r: Reading, agents: seq<HerdrAgent>, ids: seq<string>): State
    requires |ids| == |agents|
  {
    if !Listening(s, r.key) then s
    else Sweep(ObserveAll(Rebase(s, r), Baselined(s, r), agents, ids), r, agents)
  }
}

/** What every operation on the ledger and the queue keeps. */
module LedgerInvariant {
  import opened Options
  import opened HerdrMetadata
  import opened HostEvents
  import opened PendingEvents
  import opened Ledger

  /** A queued pane event belongs to a pane still in the ledger, in the same incarnation and
      terminal, whose sequence has not fallen below that of the event. */
  ghost predicate Current(row: Row, bindings: map<string, Binding>, panes: Panes) {
    && row.source == Herdr && row.origin.FromPane?
    && row.origin.key in bindings
    && bindings[row.origin.key].sessionId == row.session
    && bindings[row.origin.key].incarnation == row.origin.incarnation
    && PaneKey(row.origin.key, row.pane) in panes
    && panes[PaneKey(row.origin.key, row.pane)].terminal == row.origin.terminal
    && row.origin.sequence <= panes[PaneKey(row.origin.key, row.pane)].sequence
  }

  ghost predicate NoStaleHints(t: Table, bindings: map<string, Binding>, panes: Panes) {
    forall id :: id in t && t[id].pane != "" ==> Current(t[id], bindings, panes)
  }

  /** Queued events of one pane carry increasing sequences in queue order. */
  ghost predicate Increasing(t: Table) {
    forall a, b :: a in t && b in t && t[a].pane != "" && t[a].pane == t[b].pane && t[a].session == t[b].session
      && t[a].rowid < t[b].rowid && t[a].origin.FromPane? && t[b].origin.FromPane?
      ==> t[a].origin.sequence < t[b].origin.sequence
  }

  ghost predicate Filed(t: Table) {
    forall id :: id in t ==>
      (t[id].source == Herdr <==> FiledAsHerdr(t[id].body)) && (t[id].source == Codex ==> t[id].pane == "")
  }

  ghost predicate BindingsOk(bindings: map<string, Binding>) {
    && |bindings| <= MAX_BINDINGS
    && (forall key :: key in bindings ==> ValidID(bindings[key].sessionId))
    && (forall a, b :: a in bindings && b in bindings && a != b ==> bindings[a].sessionId != bindings[b].sessionId)
  }

  ghost predicate PanesOk(panes: Panes, bindings: map<string, Binding>) {
    forall k :: k in panes ==>
      && k.binding in bindings && bindings[k.binding].enabled && bindings[k.binding].incarnation != ""
      && panes[k].terminal != "" && k.pane != ""
  }

  /** Without consent nothing is enabled; the ledger is then empty and no pane event is queued. */
  ghost predicate Consent(s: State) {
    !s.adapter ==> forall key :: key in s.bindings ==> !s.bindings[key].enabled
  }

  ghost predicate BackendOk(t: Table, backend: Option<string>) {
    if backend.None? then forall id :: id in t ==> t[id].backend == ""
    else backend.value != "" && forall id :: id in t ==> t[id].backend != ""
  }

  ghost predicate RowsOk(e: Events) {
    UniqueRowids(e.rows) && Caps(e.rows) && Conserved(e) && Filed(e.rows) && Increasing(e.rows)
  }

  ghost predicate Inv(s: State) {
    && RowsOk(s.events) && BackendOk(s.events.rows, s.backend)
    && BindingsOk(s.bindings) && PanesOk(s.panes, s.bindings) && Consent(s)
    && NoStaleHints(s.events.rows, s.bindings, s.panes)
  }

  /** Consent, spelled out. */
  lemma DisabledIsSilent(s: State)
    requires Inv(s) && !s.adapter
    ensures s.panes == map[] && forall id :: id in s.events.rows ==> s.events.rows[id].pane == ""
  {
    assert forall k :: k !in s.panes;
  }

  // --- Fewer rows ---

  lemma DeleteKeepsRows(e: Events, ids: set<string>, why: Fate)
    requires RowsOk(e) && ids <= e.rows.Keys && why != Pending
    ensures RowsOk(Delete(e, ids, why)) && PartOf(Delete(e, ids, why).rows, e.rows)
  {
    hide Conserved, Caps, UniqueRowids, Filed, Increasing;
    var f := Delete(e, ids, why);
    DeleteConserves(e, ids, why);
    hide Delete;
    DeleteIsPart(e, ids, why);
    PartKeepsCaps(f.rows, e.rows);
    PartKeepsOrder(f.rows, e.rows);
  }

  lemma DeleteIsPart(e: Events, ids: set<string>, why: Fate)
    requires ids <= e.rows.Keys
    ensures PartOf(Delete(e, ids, why).rows, e.rows)
  {
  }

  /** Deletions keep the whole invariant. */
  lemma DeleteKeepsInv(s: State, ids: set<string>, why: Fate)
    requires Inv(s) && ids <= s.events.rows.Keys && why != Pending
    ensures Inv(s.(events := Delete(s.events, ids, why)))
  {
    DeleteKeepsRows(s.events, ids, why);
  }

  // --- One more row ---

  /** Row carries a higher sequence than every queued row of its pane. */
  ghost predicate Ascends(t: Table, row: Row)
    requires row.origin.FromPane?
  {
    forall id :: id in t && t[id].pane == row.pane && t[id].session == row.session && t[id].origin.FromPane? ==>
      t[id].origin.sequence < row.origin.sequence
  }

  /** A row may join: it is current, and newer in sequence than every queued row of its pane. */
  ghost predicate MayJoin(e: Events, row: Row, bindings: map<string, Binding>, panes: Panes) {
    && (row.source == Herdr <==> FiledAsHerdr(row.body)) && (row.source == Codex ==> row.pane == "")
    && (row.pane != "" ==> Current(row, bindings, panes) && Ascends(e.rows, row))
  }

  lemma InsertKeepsOrder(e: Events, id: string, row: Row)
    requires UniqueRowids(e.rows) && Increasing(e.rows) && Filed(e.rows)
    requires (row.source == Herdr <==> FiledAsHerdr(row.body)) && (row.source == Codex ==> row.pane == "")
    requires row.pane != "" ==> row.origin.FromPane? && Ascends(e.rows, row)
    ensures Increasing(Insert(e, id, row).rows) && Filed(Insert(e, id, row).rows)
  {
    InsertKeepsRowids(e, id, row);
  }

  lemma EnqueueKeepsHints(e: Events, id: string, row: Row, now: int, bindings: map<string, Binding>, panes: Panes)
    requires RowsOk(e) && NoStaleHints(e.rows, bindings, panes) && MayJoin(e, row, bindings, panes)
    ensures NoStaleHints(EnqueueRow(e, id, row, now).rows, bindings, panes)
  {
    hide EnqueueRow, RowsOk, Current, Ascends, FiledAsHerdr;
    EnqueueAddsOnly(e, id, row, now);
    var u := EnqueueRow(e, id, row, now).rows;
    forall j | j in u && u[j].pane != ""
      ensures Current(u[j], bindings, panes)
    {
      if InsertedAs(u[j], row) && row.pane != "" {
        CurrentAsInserted(u[j], row, bindings, panes);
      }
    }
  }

  lemma CurrentAsInserted(r: Row, row: Row, bindings: map<string, Binding>, panes: Panes)
    requires InsertedAs(r, row) && Current(row, bindings, panes)
    ensures Current(r, bindings, panes)
  {
  }

  lemma EnqueueKeepsRows(e: Events, id: string, row: Row, now: int, bindings: map<string, Binding>, panes: Panes)
    requires RowsOk(e) && MayJoin(e, row, bindings, panes)
    ensures RowsOk(EnqueueRow(e, id, row, now))
  {
    EnqueueKeepsCaps(e, id, row, now);
    EnqueueConserves(e, id, row, now);
    InsertKeepsOrder(e, id, row);
    hide Caps, Conserved, EnqueueRow;
    PartKeepsOrder(EnqueueRow(e, id, row, now).rows, Insert(e, id, row).rows);
  }

  lemma PartKeepsOrder(t: Table, u: Table)
    requires PartOf(t, u) && Increasing(u) && Filed(u)
    ensures Increasing(t) && Filed(t)
  {
  }

  lemma EnqueueKeepsBackend(e: Events, id: string, row: Row, now: int, backend: Option<string>)
    requires RowsOk(e) && BackendOk(e.rows, backend) && row.backend == CurrentBackend(backend)
    ensures BackendOk(EnqueueRow(e, id, row, now).rows, backend)
  {
    hide EnqueueRow, RowsOk;
    EnqueueAddsOnly(e, id, row, now);
  }

  /** Everything but the reconciler enqueues Codex events and test notifications. */
  ghost predicate Outside(body: Body) {
    FiledAsHerdr(body) ==> body.event.eventType == TestNotification
  }

  lemma OutsideHasNoPane(body: Body, now: int, backend: string)
    requires Outside(body)
    ensures var row := NewRow(body, now, backend, External);
      row.pane == "" && row.backend == backend && (row.source == Herdr <==> FiledAsHerdr(body)) && row.body == body
  {
  }

  lemma EnqueueKeepsInv(s: State, id: string, body: Body, now: int)
    requires Inv(s) && Outside(body)
    ensures Inv(Enqueue(s, id, body, now))
  {
    OutsideHasNoPane(body, now, CurrentBackend(s.backend));
    var row := NewRow(body, now, CurrentBackend(s.backend), External);
    EnqueueKeepsRows(s.events, id, row, now, s.bindings, s.panes);
    EnqueueKeepsHints(s.events, id, row, now, s.bindings, s.panes);
    EnqueueKeepsBackend(s.events, id, row, now, s.backend);
  }

  // --- Bindings and consent ---

  lemma BindKeepsBindings(s: State, key: string, displayName: string, newId: string)
    requires BindingsOk(s.bindings) && ValidID(newId) && forall k :: k in s.bindings ==> s.bindings[k].sessionId != newId
    ensures BindingsOk(Bind(s, key, displayName, newId).0.bindings)
  {
    hide ValidID;
    if key in s.bindings && s.adapter {
      OneBindingSet(s.bindings, key, s.bindings[key].(enabled := true));
    } else if key !in s.bindings && |s.bindings| < MAX_BINDINGS {
      OneBindingSet(s.bindings, key, Binding(newId, displayName, "", true));
    }
  }

  lemma OneBindingSet(bindings: map<string, Binding>, key: string, b: Binding)
    requires BindingsOk(bindings) && ValidID(b.sessionId)
    requires forall k :: k in bindings && k != key ==> bindings[k].sessionId != b.sessionId
    requires key !in bindings ==> |bindings| < MAX_BINDINGS
    ensures BindingsOk(bindings[key := b])
  {
    hide ValidID;
    var t := bindings[key := b];
    OneKeySet(bindings, key, b);
    forall x, y | x in t && y in t && x != y
      ensures t[x].sessionId != t[y].sessionId
    {
      if x == key {
        assert t[y] == bindings[y];
      } else if y == key {
        assert t[x] == bindings[x];
      } else {
        assert t[x] == bindings[x] && t[y] == bindings[y];
      }
    }
  }

  lemma OneKeySet<K, V>(m: map<K, V>, key: K, value: V)
    ensures |m[key := value]| == if key in m then |m| else |m| + 1
  {
    var t := m[key := value];
    assert |t| == |t.Keys| && |m| == |m.Keys|;
    assert t.Keys == m.Keys + {key};
    if key in m {
      assert t.Keys == m.Keys;
    }
  }

  /** Binding keeps the session id of every known key; it is refused exactly without consent or, for a
      new key, when 128 are taken, and then changes nothing. */
  lemma BindKeepsIdentity(s: State, key: string, displayName: string, newId: string)
    ensures var (u, b) := Bind(s, key, displayName, newId);
      && (forall k :: k in s.bindings ==> k in u.bindings && u.bindings[k].sessionId == s.bindings[k].sessionId)
      && (b.Some? ==> key in u.bindings && u.bindings[key] == b.value && b.value.enabled)
      && (b.None? <==> !s.adapter || (key !in s.bindings && |s.bindings| >= 128))
      && (b.None? ==> u == s)
  {
  }

  lemma BindKeepsHints(s: State, key: string, displayName: string, newId: string)
    requires NoStaleHints(s.events.rows, s.bindings, s.panes) && PanesOk(s.panes, s.bindings)
    ensures var u := Bind(s, key, displayName, newId).0;
      NoStaleHints(u.events.rows, u.bindings, u.panes) && PanesOk(u.panes, u.bindings)
  {
    var u := Bind(s, key, displayName, newId).0;
    forall id | id in s.events.rows && s.events.rows[id].pane != ""
      ensures Current(s.events.rows[id], u.bindings, u.panes)
    {
      assert Current(s.events.rows[id], s.bindings, s.panes);
    }
  }

  lemma BindKeepsInv(s: State, key: string, displayName: string, newId: string)
    requires Inv(s) && ValidID(newId) && forall k :: k in s.bindings ==> s.bindings[k].sessionId != newId
    ensures Inv(Bind(s, key, displayName, newId).0)
  {
    BindKeepsBindings(s, key, displayName, newId);
    BindKeepsHints(s, key, displayName, newId);
    hide RowsOk, BackendOk, BindingsOk, NoStaleHints, PanesOk;
  }

  /** Turning capture off keeps every session id, and leaves nothing enabled, observed or queued. */
  lemma SetCaptureKeepsInv(s: State, enabled: bool)
    requires Inv(s)
    ensures var u := SetCapture(s, enabled);
      && Inv(u) && u.adapter == enabled && u.bindings.Keys == s.bindings.Keys
      && (forall k :: k in s.bindings ==> u.bindings[k].sessionId == s.bindings[k].sessionId)
      && (!enabled ==> u.panes == map[] && HerdrRows(u.events.rows) == {})
      && (forall id :: id in s.events.rows && s.events.rows[id].source == Codex ==>
            id in u.events.rows && u.events.rows[id] == s.events.rows[id])
  {
    hide RowsOk, BindingsOk, FiledAsHerdr, Settle, Serials;
    if !enabled {
      DeleteKeepsRows(s.events, HerdrRows(s.events.rows), Discarded);
      DisabledKeepsBindings(s.bindings);
    }
  }

  lemma DisabledKeepsBindings(bindings: map<string, Binding>)
    requires BindingsOk(bindings)
    ensures BindingsOk(Disabled(bindings))
  {
    hide ValidID;
    var t := Disabled(bindings);
    assert |t| == |t.Keys| && |bindings| == |bindings.Keys|;
    assert t.Keys == bindings.Keys;
  }

  // --- Reconciliation ---

  /** The caller holds the binding it read from the table; the socket's incarnation marker is not empty. */
  ghost predicate ReadFrom(r: Reading, s: State) {
    r.key in s.bindings && s.bindings[r.key].sessionId == r.sessionId && r.incarnation != "" && r.now != ZERO_TIME
  }

  lemma RebaseKeepsHints(s: State, r: Reading)
    requires NoStaleHints(s.events.rows, s.bindings, s.panes) && PanesOk(s.panes, s.bindings)
    requires BindingsOk(s.bindings) && ReadFrom(r, s)
    ensures var u := Rebase(s, r);
      NoStaleHints(u.events.rows, u.bindings, u.panes) && (Listening(s, r.key) ==> PanesOk(u.panes, u.bindings))
  {
    var u := Rebase(s, r);
    forall id | id in u.events.rows && u.events.rows[id].pane != ""
      ensures Current(u.events.rows[id], u.bindings, u.panes)
    {
      assert Current(s.events.rows[id], s.bindings, s.panes);
    }
  }

  lemma RebaseKeepsBindings(s: State, r: Reading)
    requires BindingsOk(s.bindings) && ReadFrom(r, s)
    ensures BindingsOk(Rebase(s, r).bindings)
  {
    assert Rebase(s, r).bindings.Keys == s.bindings.Keys;
    assert |Rebase(s, r).bindings| == |s.bindings.Keys| && |s.bindings| == |s.bindings.Keys|;
  }

  lemma RebaseKeepsInv(s: State, r: Reading)
    requires Inv(s) && ReadFrom(r, s) && Listening(s, r.key)
    ensures Inv(Rebase(s, r)) && ReadFrom(r, Rebase(s, r))
    ensures Rebase(s, r).bindings[r.key] == s.bindings[r.key].(incarnation := r.incarnation)
    ensures Rebase(s, r).adapter == s.adapter
  {
    DeleteKeepsRows(s.events, OfSession(s.events.rows, r.sessionId), Discarded);
    RebaseKeepsHints(s, r);
    RebaseKeepsBindings(s, r);
    hide RowsOk, BindingsOk, NoStaleHints, PanesOk;
  }

  lemma PaneRowFacts(backend: Option<string>, r: Reading, a: HerdrAgent, kind: EventType)
    requires CheckedAgent(a) && KindFits(kind, a.status) && ValidID(r.sessionId) && r.now != ZERO_TIME
    ensures var row := PaneRow(backend, r, a, kind);
      && FiledAsHerdr(row.body) && row.body == Parsed(PaneEvent(a, kind, r.sessionId, r.displayName, r.now))
      && row.source == Herdr && row.session == r.sessionId && row.pane == a.paneId
      && row.expires == r.now + 1800 && row.backend == CurrentBackend(backend)
      && row.origin == FromPane(r.key, r.incarnation, a.terminalId, a.sequence)
  {
    PaneEventIsValid(a, kind, r.sessionId, r.displayName, r.now);
  }

  /** The pane is known in this terminal, the agent named, and its sequence has gone up. */
  predicate Raised(prior: Option<Pane>, a: HerdrAgent) {
    && prior.Some? && prior.value.terminal == a.terminalId && a.agent != ""
    && prior.value.sequence < a.sequence
  }

  /** When what is sent: attention exactly as a raised pane becomes blocked, progress exactly as its work
      completes, nothing at a baseline; and what is sent fits the status. Queued events are purged exactly
      when a stored pane shows another terminal or a lower sequence. */
  lemma DecideFacts(prior: Option<Pane>, a: HerdrAgent, baseline: bool)
    ensures var d := Decide(prior, a, baseline);
      && (d.send == Some(AttentionRequired) <==>
            !baseline && Raised(prior, a) && a.status == Blocked && prior.value.status != Blocked)
      && (d.send == Some(ProgressUpdated) <==>
            && !baseline && Raised(prior, a) && a.status in {Idle, Done}
            && (if a.completionSupported then a.completionSequence == Some(a.sequence) else prior.value.status == Working))
      && (d.send.Some? ==> KindFits(d.send.value, a.status) && !Initial(prior, a) && !d.purge)
      && (prior.Some? && prior.value.terminal != "" ==>
            (d.purge <==> prior.value.terminal != a.terminalId || a.sequence < prior.value.sequence))
  {
  }

  /** After storing the observation and purging if it was initial, no stale hint is left. */
  lemma StoreKeepsHints(s: State, r: Reading, a: HerdrAgent, kept: Table)
    requires Inv(s) && ReadFrom(r, s) && PartOf(kept, s.events.rows) && a.terminalId != ""
    requires Initial(Prior(s.panes, r.key, a), a) && Prior(s.panes, r.key, a).Some? ==>
      forall id :: id in kept ==> id !in OfPane(s.events.rows, r.sessionId, a.paneId)
    ensures NoStaleHints(kept, s.bindings, Store(s.panes, r.key, a))
  {
    var panes := Store(s.panes, r.key, a);
    forall id | id in kept && kept[id].pane != ""
      ensures Current(kept[id], s.bindings, panes)
    {
      var row := s.events.rows[id];
      assert Current(row, s.bindings, s.panes);
      if row.origin.key == r.key && row.pane == a.paneId {
        assert Prior(s.panes, r.key, a).Some?;
      }
    }
  }

  lemma StoreKeepsPanes(s: State, r: Reading, a: HerdrAgent)
    requires PanesOk(s.panes, s.bindings) && ReadFrom(r, s) && CheckedAgent(a)
    requires s.bindings[r.key].enabled && s.bindings[r.key].incarnation == r.incarnation
    ensures PanesOk(Store(s.panes, r.key, a), s.bindings)
  {
  }

  lemma SilentObserveKeepsInv(s: State, r: Reading, a: HerdrAgent, id: string, row: Row)
    requires Inv(s) && ReadFrom(r, s) && CheckedAgent(a) && s.bindings[r.key].enabled
    requires Decide(Prior(s.panes, r.key, a), a, r.baseline).send.None?
    requires s.bindings[r.key].incarnation == r.incarnation
    ensures Inv(ObserveRow(s, r, a, Decide(Prior(s.panes, r.key, a), a, r.baseline), id, row))
  {
    var prior := Prior(s.panes, r.key, a);
    var d := Decide(prior, a, r.baseline);
    assert prior.Some? ==> prior.value.terminal != "";
    hide RowsOk, BindingsOk, NoStaleHints, BackendOk, PanesOk, Decide;
    DecideFacts(prior, a, r.baseline);
    var gone := OfPane(s.events.rows, r.sessionId, a.paneId);
    DeleteKeepsRows(s.events, gone, Discarded);
    DeleteKeepsBackend(s.events, gone, s.backend);
    StoreKeepsPanes(s, r, a);
    StoreKeepsHints(s, r, a, if d.purge then Delete(s.events, gone, Discarded).rows else s.events.rows);
  }

  lemma DeleteKeepsBackend(e: Events, ids: set<string>, backend: Option<string>)
    requires BackendOk(e.rows, backend) && ids <= e.rows.Keys
    ensures BackendOk(Delete(e, ids, Discarded).rows, backend)
  {
  }

  lemma SendingObserveKeepsInv(s: State, r: Reading, a: HerdrAgent, id: string, row: Row)
    requires Inv(s) && ReadFrom(r, s) && CheckedAgent(a) && s.bindings[r.key].enabled
    requires s.bindings[r.key].incarnation == r.incarnation
    requires Decide(Prior(s.panes, r.key, a), a, r.baseline).send.Some?
    requires FiledAsHerdr(row.body) && row.source == Herdr && row.session == r.sessionId && row.pane == a.paneId
    requires row.origin == FromPane(r.key, r.incarnation, a.terminalId, a.sequence)
    requires row.backend == CurrentBackend(s.backend)
    ensures Inv(ObserveRow(s, r, a, Decide(Prior(s.panes, r.key, a), a, r.baseline), id, row))
  {
    hide RowsOk, BindingsOk, NoStaleHints, BackendOk, PanesOk, MayJoin, Decide, FiledAsHerdr, EnqueueRow;
    var panes := Store(s.panes, r.key, a);
    DecideFacts(Prior(s.panes, r.key, a), a, r.baseline);
    StoreKeepsPanes(s, r, a);
    StoreKeepsHints(s, r, a, s.events.rows);
    SentRowMayJoin(s, r, a, row);
    EnqueueKeepsRows(s.events, id, row, r.now, s.bindings, panes);
    EnqueueKeepsHints(s.events, id, row, r.now, s.bindings, panes);
    EnqueueKeepsBackend(s.events, id, row, r.now, s.backend);
  }

  lemma ObserveKeepsInv(s: State, r: Reading, a: HerdrAgent, id: string)
    requires Inv(s) && ReadFrom(r, s) && CheckedAgent(a)
    requires s.bindings[r.key].enabled && s.bindings[r.key].incarnation == r.incarnation
    ensures Inv(Observe(s, r, a, id))
    ensures Observe(s, r, a, id).bindings == s.bindings && Observe(s, r, a, id).adapter == s.adapter
    ensures Observe(s, r, a, id).panes == Store(s.panes, r.key, a)
  {
    assert ValidID(r.sessionId);
    hide Inv, PaneRow, Decide, FiledAsHerdr;
    var d := Decide(Prior(s.panes, r.key, a), a, r.baseline);
    if d.send.Some? {
      DecideFacts(Prior(s.panes, r.key, a), a, r.baseline);
      PaneRowFacts(s.backend, r, a, d.send.value);
      SendingObserveKeepsInv(s, r, a, id, PaneRow(s.backend, r, a, d.send.value));
    } else {
      SilentObserveKeepsInv(s, r, a, id, PaneRow(s.backend, r, a, OtherType));
    }
  }

  lemma SentRowMayJoin(s: State, r: Reading, a: HerdrAgent, row: Row)
    requires Inv(s) && ReadFrom(r, s) && s.bindings[r.key].incarnation == r.incarnation
    requires Prior(s.panes, r.key, a).Some? && !Initial(Prior(s.panes, r.key, a), a)
    requires Prior(s.panes, r.key, a).value.sequence < a.sequence
    requires FiledAsHerdr(row.body) && row.source == Herdr && row.session == r.sessionId && row.pane == a.paneId
    requires row.origin == FromPane(r.key, r.incarnation, a.terminalId, a.sequence)
    ensures MayJoin(s.events, row, s.bindings, Store(s.panes, r.key, a))
  {
    forall j | j in s.events.rows && s.events.rows[j].pane == a.paneId && s.events.rows[j].session == r.sessionId
      && row.pane != "" && s.events.rows[j].origin.FromPane?
      ensures s.events.rows[j].origin.sequence < a.sequence
    {
      assert Current(s.events.rows[j], s.bindings, s.panes);
    }
  }

  lemma {:induction false} ObserveAllKeepsInv(s: State, r: Reading, agents: seq<HerdrAgent>, ids: seq<string>)
    requires |ids| == |agents| && Inv(s) && ReadFrom(r, s) && forall a :: a in agents ==> CheckedAgent(a)
    requires s.bindings[r.key].enabled && s.bindings[r.key].incarnation == r.incarnation
    ensures Inv(ObserveAll(s, r, agents, ids))
    ensures ObserveAll(s, r, agents, ids).bindings == s.bindings && ObserveAll(s, r, agents, ids).adapter == s.adapter
    ensures ObserveAll(s, r, agents, ids).panes == StoreAll(s.panes, r.key, agents)
  {
    if agents != [] {
      hide Inv;
      var n := |agents| - 1;
      ObserveAllKeepsInv(s, r, agents[..n], ids[..n]);
      ObserveKeepsInv(ObserveAll(s, r, agents[..n], ids[..n]), r, agents[n], ids[n]);
    }
  }

  lemma SweepKeepsInv(s: State, r: Reading, agents: seq<HerdrAgent>)
    requires Inv(s) && ReadFrom(r, s)
    ensures Inv(Sweep(s, r, agents))
  {
    var removed := Removed(s.panes, r.key, agents);
    var gone := OfPanes(s.events.rows, r.sessionId, removed);
    var u := Sweep(s, r, agents);
    DeleteKeepsRows(s.events, gone, Discarded);
    forall id | id in u.events.rows && u.events.rows[id].pane != ""
      ensures Current(u.events.rows[id], u.bindings, u.panes)
    {
      var row := s.events.rows[id];
      assert Current(row, s.bindings, s.panes);
      var k := PaneKey(row.origin.key, row.pane);
      if k in removed {
        assert false;
      }
    }
  }

  /** Reconciling any snapshot, even one that names a pane twice, keeps the invariant. */
  lemma ReconcileKeepsInv(s: State, r: Reading, agents: seq<HerdrAgent>, ids: seq<string>)
    requires |ids| == |agents| && Inv(s) && ReadFrom(r, s) && forall a :: a in agents ==> CheckedAgent(a)
    ensures Inv(Reconcile(s, r, agents, ids))
  {
    if Listening(s, r.key) {
      RebaseKeepsInv(s, r);
      var r' := Baselined(s, r);
      ObserveAllKeepsInv(Rebase(s, r), r', agents, ids);
      SweepKeepsInv(ObserveAll(Rebase(s, r), r', agents, ids), r, agents);
    }
  }
}
