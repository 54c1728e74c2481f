/** Herdr signals: how they coalesce between ticks, and what a tick makes of them. */
module HerdrSignals {
  import opened Options
  import opened HostEvents
  import opened PendingEvents
  import opened Ledger
  import opened LedgerInvariant
  import opened LedgerRefinement
  import opened LedgerRuns
  import opened Upload
  import opened DurableQueue

  const MAX_PENDING := 128

  datatype Signal = Signal(key: string, socket: string, baseline: bool)
  type Dirty = map<string, Signal>

  function Received(d: Dirty, s: Signal): Dirty {
    if |d| < MAX_PENDING then d[s.key := s.(baseline := s.baseline || (s.key in d && d[s.key].baseline))] else d
  }

  /** The pending signals after these, from none. */
  function Gathered(signals: seq<Signal>): Dirty {
    if signals == [] then map[]
    else Received(Gathered(signals[..|signals| - 1]), signals[|signals| - 1])
  }

  // --- The closed form ---

  function Keys(signals: seq<Signal>): set<string> { set s | s in signals :: s.key }

  function LastSocket(signals: seq<Signal>, key: string): string
    requires key in Keys(signals)
  {
    var n := |signals| - 1;
    assert signals == signals[..n] + [signals[n]];
    if signals[n].key == key then signals[n].socket else LastSocket(signals[..n], key)
  }

  predicate Asked(signals: seq<Signal>, key: string) { exists s :: s in signals && s.key == key && s.baseline }

  /** Per key the last socket and the disjunction of the baseline flags. */
  function Coalesced(signals: seq<Signal>): Dirty {
    map k | k in Keys(signals) :: Signal(k, LastSocket(signals, k), Asked(signals, k))
  }

  /** The signals that are not dropped: those that came before 128 keys were pending. */
  function Heard(signals: seq<Signal>): seq<Signal> {
    if signals == [] then []
    else
      var n := |signals| - 1;
      var heard := Heard(signals[..n]);
      if |Keys(heard)| < MAX_PENDING then heard + [signals[n]] else heard
  }

  lemma CoalescedStep(signals: seq<Signal>, s: Signal)
    ensures Keys(signals + [s]) == Keys(signals) + {s.key}
    ensures Coalesced(signals + [s]) ==
      Coalesced(signals)[s.key := s.(baseline := s.baseline || (s.key in Keys(signals) && Asked(signals, s.key)))]
  {
    var all := signals + [s];
    assert all[..|signals|] == signals;
    assert forall x :: x in all <==> x in signals || x == s;
    forall k ensures Asked(all, k) <==> Asked(signals, k) || (k == s.key && s.baseline) {
      if Asked(signals, k) {
        var x :| x in signals && x.key == k && x.baseline;
        assert x in all;
      }
      if k == s.key && s.baseline {
        assert s in all;
      }
    }
    forall k ensures k in Keys(all) <==> k in Keys(signals) || k == s.key {
      if k in Keys(signals) {
        var x :| x in signals && x.key == k;
        assert x in all;
      }
      assert s in all;
    }
    assert s.key !in Keys(signals) ==> !Asked(signals, s.key);
  }

  /** For every sequence of signals, what is pending is the closed form of those heard, never more than
      128 keys. */
  lemma {:induction false} PendingIsCoalesced(signals: seq<Signal>)
    ensures Gathered(signals) == Coalesced(Heard(signals))
    ensures Gathered(signals).Keys == Keys(Heard(signals)) && |Gathered(signals)| == |Keys(Heard(signals))| <= 128
  {
    if signals != [] {
      hide Keys, Asked, Coalesced;
      var front, last := signals[..|signals| - 1], signals[|signals| - 1];
      PendingIsCoalesced(front);
      CoalescedStep(Heard(front), last);
      CoalescedAt(Heard(front), last.key);
    } else {
      assert Coalesced([]) == map[];
    }
    assert |Gathered(signals)| == |Gathered(signals).Keys|;
  }

  lemma CoalescedAt(signals: seq<Signal>, key: string)
    ensures key in Coalesced(signals) <==> key in Keys(signals)
    ensures key in Keys(signals) ==> Coalesced(signals)[key] == Signal(key, LastSocket(signals, key), Asked(signals, key))
  {
  }

  lemma EmptyHasNoKeys()
    ensures Keys([]) == {}
  {
  }

  lemma MoreKeys(signals: seq<Signal>, s: Signal)
    ensures |Keys(signals)| <= |Keys(signals + [s])|
  {
    CoalescedStep(signals, s);
    SubsetSize(Keys(signals), Keys(signals + [s]));
  }

  lemma {:induction false} FewKeysAreHeard(signals: seq<Signal>)
    requires |Keys(signals)| < MAX_PENDING
    ensures Heard(signals) == signals
  {
    if signals != [] {
      hide Keys;
      var front, last := signals[..|signals| - 1], signals[|signals| - 1];
      assert signals == front + [last];
      MoreKeys(front, last);
      FewKeysAreHeard(front);
    }
  }

  lemma {:induction false} ManyKeysFill(signals: seq<Signal>)
    requires |Keys(signals)| >= MAX_PENDING
    ensures |Keys(Heard(signals))| >= MAX_PENDING && |Heard(signals)| <= |signals|
  {
    EmptyHasNoKeys();
    if signals != [] {
      hide Keys;
      var front, last := signals[..|signals| - 1], signals[|signals| - 1];
      assert signals == front + [last];
      if |Keys(front)| >= MAX_PENDING {
        ManyKeysFill(front);
      } else {
        FewKeysAreHeard(front);
      }
    }
  }

  lemma HeardStep(front: seq<Signal>, last: Signal)
    ensures Heard(front + [last]) == if |Keys(Heard(front))| < MAX_PENDING then Heard(front) + [last] else Heard(front)
  {
    hide Keys;
    assert (front + [last])[..|front|] == front;
  }

  lemma EmptyIsHeard()
    ensures Heard([]) == []
  {
  }

  lemma LastIsHeard(front: seq<Signal>, last: Signal)
    ensures Heard(front + [last]) == front + [last] <==> |Keys(front)| < MAX_PENDING
  {
    hide Keys, Heard;
    HeardStep(front, last);
    if |Keys(front)| < MAX_PENDING {
      FewKeysAreHeard(front);
    } else {
      ManyKeysFill(front);
      assert |front + [last]| == |front| + 1;
    }
  }

  /** No signal is dropped exactly when fewer than 128 keys were pending before the last. */
  lemma HeardExactly(signals: seq<Signal>)
    ensures Heard(signals) == signals <==> signals == [] || |Keys(signals[..|signals| - 1])| < 128
  {
    hide Keys, Heard;
    EmptyIsHeard();
    if signals != [] {
      assert signals == signals[..|signals| - 1] + [signals[|signals| - 1]];
      LastIsHeard(signals[..|signals| - 1], signals[|signals| - 1]);
    }
  }

  // --- Order and repetition ---

  /** As for signals of the hook command, whose key is the hash of their socket. */
  ghost predicate SocketsFollowKeys(signals: seq<Signal>) {
    forall a, b :: a in signals && b in signals && a.key == b.key ==> a.socket == b.socket
  }

  lemma {:induction false} LastSocketIsAny(signals: seq<Signal>, s: Signal)
    requires SocketsFollowKeys(signals) && s in signals
    ensures s.key in Keys(signals) && LastSocket(signals, s.key) == s.socket
  {
    var n := |signals| - 1;
    var last := signals[n];
    assert signals == signals[..n] + [last] && last in signals;
    if last.key != s.key {
      LastSocketIsAny(signals[..n], s);
    }
  }

  /** With fewer than 128 keys, only the set of signals counts: neither order nor repetition does. */
  lemma OrderDoesNotCount(a: seq<Signal>, b: seq<Signal>)
    requires forall s :: s in a <==> s in b
    requires SocketsFollowKeys(a) && |Keys(a)| < 128
    ensures Gathered(a) == Gathered(b)
  {
    hide Gathered, Heard, LastSocket, Coalesced, Keys;
    SameKeys(a, b);
    FewKeysAreHeard(a);
    FewKeysAreHeard(b);
    PendingIsCoalesced(a);
    PendingIsCoalesced(b);
    SameCoalesced(a, b);
  }

  lemma SameKeys(a: seq<Signal>, b: seq<Signal>)
    requires forall s :: s in a <==> s in b
    ensures Keys(a) == Keys(b) && (SocketsFollowKeys(a) ==> SocketsFollowKeys(b))
    ensures forall k :: Asked(a, k) <==> Asked(b, k)
  {
  }

  lemma SameCoalesced(a: seq<Signal>, b: seq<Signal>)
    requires (forall s :: s in a <==> s in b) && SocketsFollowKeys(a)
    ensures Coalesced(a) == Coalesced(b)
  {
    hide LastSocket, Asked;
    SameKeys(a, b);
    forall k | k in Keys(a)
      ensures LastSocket(a, k) == LastSocket(b, k)
    {
      var s :| s in a && s.key == k;
      LastSocketIsAny(a, s);
      LastSocketIsAny(b, s);
    }
  }

  // --- When the map is full ---

  /** The signal will be acted on: its key is pending with its socket, and as a baseline if it asks so. */
  predicate Honoured(d: Dirty, s: Signal) {
    s.key in d && d[s.key].socket == s.socket && (s.baseline ==> d[s.key].baseline)
  }

  /** The next signal is honoured exactly if a key is free or it adds nothing. */
  lemma NextIsHonoured(signals: seq<Signal>, s: Signal)
    ensures Honoured(Gathered(signals + [s]), s) <==>
      |Gathered(signals)| < 128 || Honoured(Gathered(signals), s)
  {
    hide Honoured;
    assert (signals + [s])[..|signals|] == signals;
    ReceivedIsHonoured(Gathered(signals), s);
  }

  lemma ReceivedIsHonoured(d: Dirty, s: Signal)
    ensures |d| < MAX_PENDING ==> Honoured(Received(d, s), s)
    ensures |d| >= MAX_PENDING ==> Received(d, s) == d
  {
  }

  function Repeated(n: nat): string { if n == 0 then "" else Repeated(n - 1) + "x" }

  lemma {:induction false} RepeatedLength(n: nat)
    ensures |Repeated(n)| == n
  {
    if n > 0 {
      RepeatedLength(n - 1);
    }
  }

  lemma {:induction false} LongerThanAll(keys: set<string>) returns (n: nat)
    ensures forall k :: k in keys ==> |k| < n
    decreases |keys|
  {
    if keys == {} {
      n := 0;
    } else {
      var k :| k in keys;
      n := LongerThanAll(keys - {k});
      n := if |k| < n then n else |k| + 1;
    }
  }

  lemma FreshKeyIsLost(signals: seq<Signal>) returns (s: Signal)
    requires SocketsFollowKeys(signals) && |Gathered(signals)| >= MAX_PENDING
    ensures SocketsFollowKeys(signals + [s]) && !Honoured(Gathered(signals + [s]), s)
  {
    hide Gathered, Heard;
    var n := LongerThanAll(Keys(signals) + Gathered(signals).Keys);
    RepeatedLength(n);
    s := Signal(Repeated(n), "", false);
    assert forall a :: a in signals ==> a.key in Keys(signals) && a.key != s.key;
    NextIsHonoured(signals, s);
    assert s.key !in Gathered(signals);
  }

  /** Every next signal of the hook command is honoured exactly when fewer than 128 distinct keys have been
      heard. */
  lemma AllNextAreHonoured(signals: seq<Signal>)
    requires SocketsFollowKeys(signals)
    ensures (forall s :: SocketsFollowKeys(signals + [s]) ==> Honoured(Gathered(signals + [s]), s)) <==>
      |Keys(signals)| < 128
  {
    hide Gathered, Heard, Keys, SocketsFollowKeys, Honoured;
    PendingIsCoalesced(signals);
    if |Keys(signals)| < MAX_PENDING {
      FewKeysAreHeard(signals);
      forall s
        ensures Honoured(Gathered(signals + [s]), s)
      {
        NextIsHonoured(signals, s);
      }
    } else {
      ManyKeysFill(signals);
      var s := FreshKeyIsLost(signals);
      assert SocketsFollowKeys(signals + [s]);
    }
  }

  /** In a full map a signal that asks for a baseline is lost even for a pending key, unless one was
      already asked for. */
  lemma BaselineIsLost(signals: seq<Signal>, key: string)
    requires |Gathered(signals)| >= MAX_PENDING && key in Gathered(signals)
    ensures var s := Gathered(signals)[key].(key := key, baseline := true);
      Honoured(Gathered(signals + [s]), s) <==> Gathered(signals)[key].baseline
  {
    hide Gathered;
    NextIsHonoured(signals, Gathered(signals)[key].(key := key, baseline := true));
  }

  lemma KeysStep(signals: seq<Signal>, s: Signal)
    ensures Keys(signals + [s]) == Keys(signals) + {s.key}
  {
    CoalescedStep(signals, s);
  }

  // --- The loop ---

  /** What the daemon finds behind a socket, the name it derives from it, and the ids it may draw. */
  datatype Herd = Herd(agents: seq<HerdrAgent>, incarnation: string, name: string, newId: string, ids: seq<string>, now: int)

  ghost predicate WellRead(s: State, w: Herd) {
    && |w.ids| == |w.agents| && (forall a :: a in w.agents ==> CheckedAgent(a))
    && w.incarnation != "" && w.now != ZERO_TIME
    && Legal(s, Connect("", w.name, w.newId))
  }

  /** The transactions of one signal: a binding if there is none to use, and the snapshot. */
  function Transactions(s: State, signal: Signal, herd: Option<Herd>): seq<Step> {
    var known := signal.key in s.bindings && s.bindings[signal.key].enabled;
    if !s.adapter || herd.None? || (!known && signal.socket == "") then []
    else
      var w := herd.value;
      var bound := if known then Some(s.bindings[signal.key]) else Bind(s, signal.key, w.name, w.newId).1;
      if bound.None? then []
      else if known then [Taken(signal, bound.value, w)]
      else [Connect(signal.key, w.name, w.newId)] + [Taken(signal, bound.value, w)]
  }

  function Taken(signal: Signal, b: Binding, w: Herd): Step {
    Snapshot(Reading(signal.key, b.sessionId, b.displayName, w.incarnation, signal.baseline, w.now), w.agents, w.ids)
  }

  lemma FollowsNothing(s: State, u: State)
    ensures Follows(s, [], u) ==> u == s
  {
  }

  lemma KnownSignal(s: State, signal: Signal, w: Herd)
    requires WellRead(s, w) && signal.key in s.bindings
    ensures Legal(s, Taken(signal, s.bindings[signal.key], w))
  {
  }

  lemma NewSignal(s: State, signal: Signal, w: Herd)
    requires WellRead(s, w) && Bind(s, signal.key, w.name, w.newId).1.Some?
    ensures var step := Connect(signal.key, w.name, w.newId);
      && Legal(s, step) && LedgerRuns.Next(s, step) == Bind(s, signal.key, w.name, w.newId).0
      && Legal(LedgerRuns.Next(s, step), Taken(signal, Bind(s, signal.key, w.name, w.newId).1.value, w))
  {
  }

  /** The signal names a binding in use, or a socket of which one is or may be made. */
  predicate Reachable(s: State, signal: Signal) {
    || (signal.key in s.bindings && s.bindings[signal.key].enabled)
    || (signal.socket != "" && (signal.key in s.bindings || |s.bindings| < MAX_BINDINGS))
  }

  /** The state in which the snapshot is taken, and the step that takes it. */
  lemma SnapshotTaken(s: State, signal: Signal, w: Herd, u: State) returns (t: State, step: Step)
    requires WellRead(s, w) && Follows(s, Transactions(s, signal, Some(w)), u) && s.adapter && Reachable(s, signal)
    ensures step.Snapshot? && step.r.key == signal.key && step.agents == w.agents && step.ids == w.ids
    ensures Listening(t, signal.key) && u == LedgerRuns.Next(t, step) && Legal(t, step)
    ensures forall k :: k in t.bindings ==>
      (k in s.bindings && t.bindings[k].sessionId == s.bindings[k].sessionId) || t.bindings[k].sessionId == w.newId
  {
    hide Legal, Reconcile, CheckedAgent, Follows;
    var known := signal.key in s.bindings && s.bindings[signal.key].enabled;
    var (before, bound) := if known then (s, Some(s.bindings[signal.key])) else Bind(s, signal.key, w.name, w.newId);
    t, step := before, Taken(signal, bound.value, w);
    if !known {
      FollowsFirst(s, Connect(signal.key, w.name, w.newId), [step], u);
    }
    assert [step] + [] == [step];
    FollowsFirst(t, step, [], u);
  }

  /** With capture on, a readable signal of a binding in use, or of one that may be made, leaves its panes
      exactly as the snapshot says; with capture off nothing at all happens. */
  lemma SignalTakesSnapshot(s: State, signal: Signal, herd: Option<Herd>, u: State, pane: string)
    requires (herd.Some? ==> WellRead(s, herd.value)) && Follows(s, Transactions(s, signal, herd), u)
    ensures !s.adapter || herd.None? ==> u == s
    ensures s.adapter && herd.Some? && Reachable(s, signal) ==>
      var k := PaneKey(signal.key, pane);
      && Listening(u, signal.key)
      && (k in u.panes <==> LastOf(herd.value.agents, pane).Some?)
      && (k in u.panes ==> u.panes[k] == PaneOf(LastOf(herd.value.agents, pane).value))
    ensures s.adapter && herd.Some? && !Reachable(s, signal) ==> u == s
  {
    hide Legal, Reconcile, LastOf, PaneOf, CheckedAgent, Follows, WellRead;
    FollowsNothing(s, u);
    if s.adapter && herd.Some? && Reachable(s, signal) {
      var w := herd.value;
      var t, step := SnapshotTaken(s, signal, w, u);
      SnapshotLengths(t, step);
      LedgerIsSnapshot(t, step.r, w.agents, w.ids, PaneKey(signal.key, pane));
      ReconcileKeepsListening(t, step.r, w.agents, w.ids);
    }
  }

  lemma SnapshotLengths(s: State, step: Step)
    requires Legal(s, step) && step.Snapshot?
    ensures |step.ids| == |step.agents|
  {
  }

  /** In use: its snapshots are compared with what the ledger holds. */
  predicate InUse(s: State, key: string) { key in s.bindings && s.bindings[key].enabled }

  lemma NothingToCompare(s: State, key: string, agents: seq<HerdrAgent>)
    requires Inv(s) && !InUse(s, key)
    ensures Count(PureEmissions(s.panes, key, agents, false)) == 0
  {
    hide RowsOk, BackendOk, NoStaleHints;
    assert forall a :: a in agents ==> Prior(s.panes, key, a) == None;
    NoneSent(PureEmissions(s.panes, key, agents, false));
  }

  lemma BindKeepsPanes(s: State, key: string, name: string, newId: string)
    ensures var u := Bind(s, key, name, newId).0; u.panes == s.panes && u.events == s.events && u.backend == s.backend
  {
  }

  /** How many events a signal sends: none if it is a baseline, if the binding was not in use or if the
      socket is of a new incarnation, else what the ledger and the snapshot determine. */
  lemma SignalSends(s: State, signal: Signal, w: Herd, u: State)
    requires Inv(s) && WellRead(s, w) && Follows(s, Transactions(s, signal, Some(w)), u) && s.adapter && Reachable(s, signal)
    requires DistinctPanes(w.agents) && FreshIds(s.events.rows, w.ids)
    ensures |u.events.fates| == |s.events.fates| +
      if !InUse(s, signal.key) || signal.baseline || w.incarnation != s.bindings[signal.key].incarnation then 0
      else Count(PureEmissions(s.panes, signal.key, w.agents, false))
    ensures signal.key in u.bindings && u.bindings[signal.key].incarnation == w.incarnation
  {
    hide Inv, Legal, CheckedAgent, Follows, DistinctPanes, FreshIds, PureEmissions, Reconcile;
    var known := InUse(s, signal.key);
    var (t, bound) := if known then (s, Some(s.bindings[signal.key])) else Bind(s, signal.key, w.name, w.newId);
    var step := Taken(signal, bound.value, w);
    BindKeepsPanes(s, signal.key, w.name, w.newId);
    if known {
      assert [step] + [] == [step];
      FollowsFirst(s, step, [], u);
    } else {
      FollowsFirst(s, Connect(signal.key, w.name, w.newId), [step], u);
      assert [step] + [] == [step];
      FollowsFirst(t, step, [], u);
      NothingToCompare(s, signal.key, w.agents);
    }
    ReconcileEmits(t, step.r, w.agents, w.ids);
    ReconcileKeepsListening(t, step.r, w.agents, w.ids);
    if step.r.baseline || step.r.incarnation != t.bindings[signal.key].incarnation {
      NoneSent(Sends(t, step.r, w.agents));
    }
  }

  /** And every row that a signal of a binding in use adds is that of the event of an agent, with the session
      id and the name of the binding, the time of the reading and the current backend. */
  lemma SignalCarries(s: State, signal: Signal, w: Herd, u: State, j: string) returns (i: nat)
    requires Inv(s) && WellRead(s, w) && Follows(s, Transactions(s, signal, Some(w)), u) && s.adapter && InUse(s, signal.key)
    requires DistinctPanes(w.agents) && FreshIds(s.events.rows, w.ids) && j in u.events.rows
    ensures var b := s.bindings[signal.key]; var row := u.events.rows[j];
      || (j in s.events.rows && row == s.events.rows[j])
      || (&& i < |w.agents| && i < |w.ids| && w.ids[i] == j
          && PureEmissions(s.panes, signal.key, w.agents, false)[i].Some?
          && !signal.baseline && w.incarnation == b.incarnation
          && row.body == Parsed(PaneEvent(w.agents[i], PureEmissions(s.panes, signal.key, w.agents, false)[i].value,
                                          b.sessionId, b.displayName, w.now))
          && row.source == Herdr && row.session == b.sessionId && row.pane == w.agents[i].paneId
          && row.expires == w.now + 1800 && row.attempts == 0 && row.created == row.nextAttempt == w.now
          && row.backend == CurrentBackend(s.backend))
  {
    hide Inv, Legal, CheckedAgent, Follows, DistinctPanes, FreshIds, PureEmissions, Reconcile, NewRow, PaneEvent, PaneRow;
    var step := Taken(signal, s.bindings[signal.key], w);
    assert [step] + [] == [step];
    FollowsFirst(s, step, [], u);
    i := ReconcileCarries(s, step.r, w.agents, w.ids, j);
    if i < |w.ids| && |w.ids| == |w.agents| && Sends(s, step.r, w.agents)[i].Some? {
      SentRowIs(s, step.r, w.agents, i, s.bindings[signal.key]);
    }
  }

  lemma SentRowIs(s: State, r: Reading, agents: seq<HerdrAgent>, i: nat, b: Binding)
    requires Inv(s) && r.key in s.bindings && s.bindings[r.key] == b && b.sessionId == r.sessionId && i < |agents|
    requires CheckedAgent(agents[i]) && r.now != ZERO_TIME && Sends(s, r, agents)[i].Some?
    ensures var kind := Sends(s, r, agents)[i].value; var row := PaneRow(s.backend, r, agents[i], kind);
      && row.body == Parsed(PaneEvent(agents[i], kind, r.sessionId, r.displayName, r.now))
      && row.source == Herdr && row.session == b.sessionId && row.pane == agents[i].paneId
      && row.expires == r.now + 1800 && row.attempts == 0 && row.created == row.nextAttempt == r.now
      && row.backend == CurrentBackend(s.backend)
  {
    hide RowsOk, NoStaleHints, PanesOk, BackendOk, Decide, CheckedAgent, PaneEvent, Valid, EventSource;
    var kind := Sends(s, r, agents)[i].value;
    DecideFacts(Prior(s.panes, r.key, agents[i]), agents[i], false);
    PaneRowFacts(s.backend, r, agents[i], kind);
    FilingFacts(Parsed(PaneEvent(agents[i], kind, r.sessionId, r.displayName, r.now)), r.now, CurrentBackend(s.backend),
                FromPane(r.key, r.incarnation, agents[i].terminalId, agents[i].sequence));
  }

  /** What was read for another key can still be used: at most one session id was drawn. */
  lemma OthersStayRead(s: State, signal: Signal, herd: Option<Herd>, u: State, other: Herd)
    requires (herd.Some? ==> WellRead(s, herd.value) && herd.value.newId != other.newId)
    requires WellRead(s, other) && Follows(s, Transactions(s, signal, herd), u)
    ensures WellRead(u, other)
  {
    hide Reconcile, CheckedAgent, Follows;
    if s.adapter && herd.Some? && Reachable(s, signal) {
      var w := herd.value;
      var t, step := SnapshotTaken(s, signal, w, u);
      ReconcileKeepsListening(t, step.r, w.agents, w.ids);
    } else {
      FollowsNothing(s, u);
    }
  }

  function HerdOf(herds: map<string, Herd>, key: string): Option<Herd> {
    if key in herds then Some(herds[key]) else None
  }

  /** The database after the signals were reconciled one by one. */
  ghost function Ticked(s: State, ran: seq<Signal>, herds: map<string, Herd>): State {
    if ran == [] then s
    else
      var before, last := Ticked(s, ran[..|ran| - 1], herds), ran[|ran| - 1];
      Play(before, Transactions(before, last, HerdOf(herds, last.key)))
  }

  lemma TickedStep(s: State, ran: seq<Signal>, last: Signal, herds: map<string, Herd>)
    ensures var before := Ticked(s, ran, herds);
      Ticked(s, ran + [last], herds) == Play(before, Transactions(before, last, HerdOf(herds, last.key)))
  {
    hide Play, Transactions;
    assert (ran + [last])[..|ran|] == ran;
  }

  /** Every socket still to be read answers well, with session ids of its own. */
  ghost predicate AllRead(s: State, herds: map<string, Herd>, keys: set<string>) {
    && (forall key :: key in keys && key in herds ==> WellRead(s, herds[key]))
    && forall a, b :: a in herds && b in herds && a != b ==> herds[a].newId != herds[b].newId
  }

  lemma OneKeyLess(s: State, signal: Signal, herds: map<string, Herd>, u: State, keys: set<string>)
    requires AllRead(s, herds, keys) && signal.key in keys
    requires Follows(s, Transactions(s, signal, HerdOf(herds, signal.key)), u)
    ensures AllRead(u, herds, keys - {signal.key})
  {
    hide Follows, WellRead, Transactions;
    forall key | key in keys - {signal.key} && key in herds
      ensures WellRead(u, herds[key])
    {
      OthersStayRead(s, signal, HerdOf(herds, signal.key), u, herds[key]);
    }
  }

  predicate Keyed(d: Dirty) { forall key :: key in d ==> d[key].key == key }

  /** The calls made are of distinct pending signals. */
  ghost predicate Calls(ran: seq<Signal>, d: Dirty) {
    && (forall s :: s in ran ==> s.key in d && d[s.key] == s)
    && (forall i, j :: 0 <= i < j < |ran| ==> ran[i].key != ran[j].key)
  }

  lemma NoCalls(d: Dirty)
    ensures Calls([], d) && Keys([]) == {} && d - {} == d
  {
  }

  lemma CallsStep(ran: seq<Signal>, d: Dirty, s: Signal)
    requires Calls(ran, d) && s.key in d && d[s.key] == s && s.key !in Keys(ran)
    ensures Calls(ran + [s], d)
  {
  }

  lemma NothingTicked(s: State, herds: map<string, Herd>)
    ensures Ticked(s, [], herds) == s
  {
  }

  lemma AnswersWell(s: State, herds: map<string, Herd>, keys: set<string>, key: string)
    requires AllRead(s, herds, keys) && key in keys
    ensures HerdOf(herds, key).Some? ==> WellRead(s, HerdOf(herds, key).value)
  {
    hide WellRead;
  }

  lemma OneKeyOut(d: Dirty, key: string)
    requires key in d
    ensures (d - {key}).Keys == d.Keys - {key} && |d - {key}| == |d| - 1
  {
    assert |d - {key}| == |(d - {key}).Keys| && |d| == |d.Keys|;
  }

  class HerdrLoop {
    var dirty: Dirty
    const queue: Queue

    constructor (queue: Queue)
      ensures dirty == Gathered([]) && Keyed(dirty) && this.queue == queue
    {
      dirty, this.queue := map[], queue;
    }

    method Receive(event: Signal)
      requires Keyed(dirty)
      modifies this`dirty
      ensures dirty == Received(old(dirty), event) && Keyed(dirty)
    {
      if |dirty| < MAX_PENDING {
        var baseline := event.baseline || (event.key in dirty && dirty[event.key].baseline);
        dirty := dirty[event.key := event.(baseline := baseline)];
      }
    }

    /** One tick, in any order of the map, until the context is cancelled after some calls: every pending
        signal is taken out and reconciled once, with what its socket answers. */
    method Tick(budget: nat, herds: map<string, Herd>) returns (ran: seq<Signal>)
      requires Keyed(dirty) && Inv(queue.View()) && AllRead(queue.View(), herds, dirty.Keys)
      modifies this`dirty, queue
      ensures Calls(ran, old(dirty)) && dirty == old(dirty) - Keys(ran)
      ensures budget >= |old(dirty)| ==> dirty == map[]
      ensures |ran| <= budget
      ensures queue.View() == Ticked(old(queue.View()), ran, herds) && Inv(queue.View())
    {
      hide Keys, Calls, Inv, AllRead, Ticked, Follows, Transactions, Play, WellRead, HerdOf;
      ran := [];
      ghost var d, s := dirty, queue.View();
      NoCalls(d);
      NothingTicked(s, herds);
      while dirty != map[] && |ran| < budget
        invariant Calls(ran, d) && dirty == d - Keys(ran) && |ran| <= budget
        invariant |dirty| + |ran| == |d| && Keyed(dirty)
        invariant queue.View() == Ticked(s, ran, herds) && Inv(queue.View()) && AllRead(queue.View(), herds, dirty.Keys)
        decreases |dirty|
      {
        var key :| key in dirty;
        var event := dirty[key];
        KeysStep(ran, event);
        CallsStep(ran, d, event);
        ghost var before, t := dirty, queue.View();
        OneKeyOut(dirty, key);
        dirty := dirty - {key};
        AnswersWell(t, herds, before.Keys, key);
        ReconcileHerdr(event, HerdOf(herds, key));
        FollowsIsPlay(t, Transactions(t, event, HerdOf(herds, key)), queue.View());
        OneKeyLess(t, event, herds, queue.View(), before.Keys);
        TickedStep(s, ran, event, herds);
        ran := ran + [event];
      }
    }

    /** d.reconcileHerdr; herd is what the socket answers, None if it does not. */
    method ReconcileHerdr(event: Signal, herd: Option<Herd>)
      requires Inv(queue.View()) && (herd.Some? ==> WellRead(queue.View(), herd.value))
      modifies queue
      ensures Follows(old(queue.View()), Transactions(old(queue.View()), event, herd), queue.View())
      ensures Inv(queue.View())
      ensures herd.Some? && DistinctPanes(herd.value.agents) && FreshIds(old(queue.rows), herd.value.ids) ==>
        |queue.fates| == |old(queue.fates)| +
          if !old(queue.adapter) || !(event.key in old(queue.bindings) && old(queue.bindings)[event.key].enabled)
             || event.baseline || herd.value.incarnation != old(queue.bindings)[event.key].incarnation then 0
          else Count(PureEmissions(old(queue.panes), event.key, herd.value.agents, false))
    {
      hide Inv, Legal, LedgerRuns.Next, Follows, CheckedAgent;
      ghost var s := queue.View();
      NoSteps(s);
      if !queue.adapter {
        return;
      }
      var binding := if event.key in queue.bindings then Some(queue.bindings[event.key]) else None;
      var needsBinding := binding.None? || !binding.value.enabled;
      if (needsBinding && event.socket == "") || herd.None? {
        return;
      }
      var w := herd.value;
      if needsBinding {
        binding := queue.BindHerdr(event.key, w.name, w.newId);
        if binding.None? {
          return;
        }
      }
      var b := binding.value;
      var r := Reading(event.key, b.sessionId, b.displayName, w.incarnation, event.baseline, w.now);
      var _ := queue.ReconcileHerdr(r, w.agents, w.ids);
      if needsBinding {
        NewSignal(s, event, w);
        OneOrTwoSteps(s, Connect(event.key, w.name, w.newId), Taken(event, b, w));
      } else {
        KnownSignal(s, event, w);
        OneOrTwoSteps(s, Taken(event, b, w), Wipe);
      }
      assert Transactions(s, event, herd) ==
        if needsBinding then [Connect(event.key, w.name, w.newId)] + [Taken(event, b, w)] else [Taken(event, b, w)];
      FollowsKeepsInv(s, Transactions(s, event, herd), queue.View());
      if DistinctPanes(w.agents) && FreshIds(s.events.rows, w.ids) {
        hide Transactions, Count, PureEmissions, DistinctPanes, FreshIds, WellRead;
        SignalSends(s, event, w, queue.View());
      }
    }
  }
}
