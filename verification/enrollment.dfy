/** Enrollment and backend switch: the daemon's two threads and the command line as interleaved atomic
    steps over the config file, the enrollment lock and the queue. */
module Enrollment {
  import opened Options
  import opened AgentConfig
  import opened PendingEvents
  import opened Dequeue
  import opened Ledger
  import opened LedgerInvariant
  import opened LedgerRuns

  /** Where the enrollment thread is. Loaded and Reloaded have read the file and not yet taken it over;
      Locked to Replied hold the lock. A locked refresh that is not for an attempt only discards a
      legacy token; again says that an attempt follows it. */
  datatype Thread =
    | Off
    | Starting(read: Config)
    | Idle
    | Loaded(read: Config)
    | Refreshed
    | Ready
    | Locked(attempt: bool, again: bool)
    | Reloaded(read: Config, attempt: bool, again: bool)
    | Attempting
    | Replied(ok: bool)

  /** Where an init or switch-backend command is; it holds the lock unless it is Out. */
  datatype Command = Out | In | Read(found: Option<Config>) | Switching(next: Config)

  datatype Uploader = Resting | Picked(config: Config, id: string, row: Row) | Snapped(config: Config)

  datatype Sent = Sent(hostId: string, endpoint: string, id: string, row: Row)

  /** live is d.Config; registered and sent are history. */
  datatype System = System(
    file: Option<Config>, live: Option<Config>, thread: Thread, command: Command, uploader: Uploader, queue: State,
    registered: set<(string, string)>, sent: seq<Sent>)

  datatype Action =
    | Other(step: Step)
    // runServe, a crash or stop, and enrollmentLoop
    | Serve
    | Begin
    | Stop
    | Load
    | TakeOver
    | Migrate
    | Lock
    | Skip
    // attemptEnrollment and discardLegacySetupTokenForState
    | Reload
    | TakeOverLocked
    | Reply(ok: bool)
    | Save
    | Unlock
    // runInit and runSwitchBackend
    | Enter
    | Inspect
    | Init(endpoint: string, newHost: string)
    | Rebind(endpoint: string, force: bool, database: bool)
    | Commit
    | Leave
    // uploadDue
    | Snap
    | Pick(now: int, id: string)
    | Send
    | Settle(step: Step)
    | Rest

  predicate ThreadHolds(t: Thread) { t.Locked? || t.Reloaded? || t.Attempting? || t.Replied? }

  function Configured(q: State, c: Config): Step { Configure(TrimSlashes(c.endpoint)) }

  ghost predicate Enabled(s: System, a: Action) {
    match a
    case Other(step) => Legal(s.queue, step) && !step.Configure?
    case Serve => s.thread.Off? && s.file.Some?
    case Begin => s.thread.Starting?
    case Stop => true
    case Load => s.thread.Idle? && s.file.Some?
    case TakeOver => s.thread.Loaded?
    case Migrate => s.thread.Refreshed? && s.live.Some? && s.live.value.state.NeedsSetupToken?
    case Lock =>
      && s.command.Out? && s.live.Some?
      && (s.thread.Ready? || (s.thread.Refreshed? && !s.live.value.state.NeedsSetupToken?))
    case Skip => s.thread.Loaded? || s.thread.Refreshed? || s.thread.Ready?
    case Reload => s.thread.Locked? && s.file.Some?
    case TakeOverLocked => s.thread.Reloaded?
    case Reply(_) => s.thread.Attempting? && s.live.Some?
    case Save => s.thread.Replied? && s.live.Some?
    case Unlock => ThreadHolds(s.thread)
    case Enter => s.command.Out? && !ThreadHolds(s.thread)
    case Inspect => s.command.In?
    case Init(endpoint, newHost) =>
      && s.command.Read?
      && if s.command.found.None? then Wellformed(Config(newHost, endpoint, Staged))
         else
           var c := s.command.found.value;
           (endpoint == "" || SameEndpoint(c.endpoint, endpoint)) && !c.state.Active?
    case Rebind(endpoint, force, _) =>
      && s.command.Read? && s.command.found.Some? && TrimSlashes(endpoint) != ""
      && (force || !s.command.found.value.state.Active? || !SameEndpoint(s.command.found.value.endpoint, endpoint))
    case Commit => s.command.Switching?
    case Leave => true
    case Snap => s.uploader.Resting? && s.live.Some? && s.live.value.state.Active?
    case Pick(now, id) =>
      && s.uploader.Snapped?
      && var rows := LedgerRuns.Next(s.queue, Expire(now)).events.rows;
         id in rows && Eligible(rows[id], now, TrimSlashes(s.uploader.config.endpoint))
    case Send => s.uploader.Picked?
    case Settle(step) =>
      && s.uploader.Picked? && Legal(s.queue, step)
      && (step.Finish? || step.Reschedule?) && step.id == s.uploader.id
    case Rest => true
  }

  /** d.refreshConfig after its read: the host check, ConfigureBackend, d.Config. */
  ghost function TakenOver(s: System, c: Config, onward: Thread, refused: Thread): System {
    if s.live.Some? && s.live.value.hostId != c.hostId then s.(thread := refused)
    else s.(live := Some(c), queue := LedgerRuns.Next(s.queue, Configured(s.queue, c)), thread := onward)
  }

  function Saved(s: System, state: Registration): System
    requires s.live.Some?
  {
    var c := s.live.value.(state := state);
    s.(file := Some(c), live := Some(c), thread := Idle)
  }

  ghost function After(s: System, a: Action): System
    requires Enabled(s, a)
  {
    match a
    case Other(step) => s.(queue := LedgerRuns.Next(s.queue, step))
    case Serve => s.(thread := Starting(s.file.value))
    case Begin =>
      var c := s.thread.read;
      s.(live := Some(c), queue := LedgerRuns.Next(s.queue, Configured(s.queue, c)), thread := Idle)
    case Stop => s.(live := None, thread := Off, uploader := Resting)
    case Load => s.(thread := Loaded(s.file.value))
    case TakeOver => TakenOver(s, s.thread.read, Refreshed, Idle)
    case Migrate => Saved(s, Staged)
    case Lock =>
      var c := s.live.value;
      s.(thread := Locked(s.thread.Ready? || c.state.Staged?, s.thread.Refreshed? && c.state.Active?))
    case Skip => s.(thread := if s.thread.Refreshed? && s.live.Some? && s.live.value.state.Active? then Ready else Idle)
    case Reload => s.(thread := Reloaded(s.file.value, s.thread.attempt, s.thread.again))
    case TakeOverLocked =>
      var rest := if s.thread.again then Ready else Idle;
      TakenOver(s, s.thread.read, if s.thread.attempt then Attempting else rest, rest)
    case Reply(ok) =>
      var c := s.live.value;
      s.(registered := if ok then s.registered + {(c.hostId, c.endpoint)} else s.registered, thread := Replied(ok))
    case Save => Saved(s, if s.thread.ok then Active else IdentityConflict)
    case Unlock => s.(thread := if (s.thread.Locked? || s.thread.Reloaded?) && s.thread.again then Ready else Idle)
    case Enter => s.(command := In)
    case Inspect => s.(command := Read(s.file))
    case Init(endpoint, newHost) =>
      var c :=
        if s.command.found.None? then Config(newHost, endpoint, Staged)
        else if s.command.found.value.state.NeedsSetupToken? then s.command.found.value.(state := Staged)
        else s.command.found.value;
      s.(file := Some(c), command := Out)
    case Rebind(endpoint, _, database) =>
      var c := s.command.found.value;
      s.(queue := if database then LedgerRuns.Next(s.queue, Configured(s.queue, c)) else s.queue,
         command := Switching(c.(endpoint := endpoint, state := Staged)))
    case Commit => s.(file := Some(s.command.next), command := Out)
    case Leave => s.(command := Out)
    case Snap => s.(uploader := Snapped(s.live.value))
    case Pick(now, id) =>
      var q := LedgerRuns.Next(s.queue, Expire(now));
      s.(queue := q, uploader := Picked(s.uploader.config, id, q.events.rows[id]))
    case Send =>
      var u := s.uploader;
      s.(sent := s.sent + [Sent(u.config.hostId, u.config.endpoint, u.id, u.row)])
    case Settle(step) => s.(queue := LedgerRuns.Next(s.queue, step), uploader := Resting)
    case Rest => s.(uploader := Resting)
  }

  // --- The invariant ---

  /** A configuration some party may act on. */
  ghost predicate Good(s: System, c: Config) {
    && s.file.Some? && c.hostId == s.file.value.hostId && Wellformed(c)
    && (c.state.Active? ==> (c.hostId, c.endpoint) in s.registered)
  }

  ghost predicate AllGood(s: System) {
    && (s.file.Some? ==> Good(s, s.file.value))
    && (s.live.Some? ==> Good(s, s.live.value))
    && (s.thread.Starting? || s.thread.Loaded? || s.thread.Reloaded? ==> Good(s, s.thread.read))
    && (s.command.Read? && s.command.found.Some? ==> Good(s, s.command.found.value))
    && (s.command.Switching? ==> Good(s, s.command.next))
    && (s.uploader.Snapped? || s.uploader.Picked? ==> Good(s, s.uploader.config) && s.uploader.config.state.Active?)
  }

  /** What holding the lock gives. */
  ghost predicate Excluded(s: System) {
    && (s.command.Out? || !ThreadHolds(s.thread))
    && (s.live.None? <==> s.thread.Off? || s.thread.Starting?)
    && (s.command == Read(None) ==> s.file.None?)
    && (s.command.Switching? ==> s.command.next.state.Staged?)
    && (s.thread.Reloaded? ==> s.file == Some(s.thread.read))
    && (s.thread.Attempting? || s.thread.Replied? ==> s.file == s.live)
    && (s.thread == Replied(true) ==> (s.live.value.hostId, s.live.value.endpoint) in s.registered)
  }

  /** The configurations by which the enrollment thread may write before it reads the file again. */
  function Sees(s: System): set<Config> {
    var live := if s.live.Some? then {s.live.value} else {};
    match s.thread
    case Off => {}
    case Idle => {}
    case Starting(_) => {}
    case Loaded(c) => {c}
    case Reloaded(c, _, _) => live + {c}
    case _ => live
  }

  predicate MayRegister(t: Thread) {
    t.Ready? || ((t.Locked? || t.Reloaded?) && (t.attempt || t.again)) || t.Attempting? || t.Replied?
  }

  /** A conflict in the file is one everybody about to write knows of. */
  ghost predicate ConflictSeen(s: System) {
    && (MayRegister(s.thread) ==> s.live.Some? && !s.live.value.state.IdentityConflict?)
    && (forall c :: c in Sees(s) && !c.state.IdentityConflict? ==>
          s.file.None? || !s.file.value.state.IdentityConflict?)
    && (s.command.Read? && s.command.found.Some? ==>
          s.file.Some? && s.file.value.state.IdentityConflict? == s.command.found.value.state.IdentityConflict?)
  }

  /** The row is bound to the endpoint, wherever its event still is in the queue. */
  ghost predicate BoundTo(e: Events, row: Row, endpoint: string) {
    && row.serial < |e.fates| && row.backend == TrimSlashes(endpoint) != ""
    && forall id :: id in e.rows && e.rows[id].serial == row.serial ==> e.rows[id].backend == row.backend
  }

  ghost predicate AllBound(s: System) {
    && (s.uploader.Picked? ==> BoundTo(s.queue.events, s.uploader.row, s.uploader.config.endpoint))
    && forall x :: x in s.sent ==>
      BoundTo(s.queue.events, x.row, x.endpoint) && (x.hostId, x.endpoint) in s.registered
  }

  ghost predicate Sound(s: System) {
    Inv(s.queue) && AllGood(s) && Excluded(s) && ConflictSeen(s) && AllBound(s)
  }

  /** Before the daemon first starts: a file or none, of a host already registered there if it says so. */
  ghost predicate Initial(s: System) {
    && s.live.None? && s.thread.Off? && s.command.Out? && s.uploader.Resting? && s.sent == []
    && Inv(s.queue) && (s.file.Some? ==> Good(s, s.file.value))
  }

  lemma InitialIsSound(s: System)
    requires Initial(s)
    ensures Sound(s)
  {
    hide Inv;
  }

  /** The actions that change the file or register. */
  predicate Writes(a: Action) { a.Migrate? || a.Reply? || a.Save? || a.Init? || a.Commit? }

  lemma WritesKeepGood(s: System, a: Action)
    requires AllGood(s) && Excluded(s) && Enabled(s, a) && Writes(a)
    ensures AllGood(After(s, a))
  {
    hide LedgerRuns.Next, Legal, Eligible, TrimSlashes;
  }

  lemma OthersKeepGood(s: System, a: Action)
    requires AllGood(s) && Excluded(s) && Enabled(s, a) && !Writes(a)
    ensures AllGood(After(s, a))
  {
    hide LedgerRuns.Next, Legal, Eligible, TrimSlashes, Good;
    GoodStays(s, a);
    if a.Rebind? {
      RebindIsGood(s, a);
    }
  }

  lemma GoodStays(s: System, a: Action)
    requires Enabled(s, a) && !Writes(a)
    ensures forall c :: Good(s, c) ==> Good(After(s, a), c)
    ensures forall c :: Good(s, c) && s.live == Some(c) && a.Snap? ==> c.state.Active?
  {
    hide LedgerRuns.Next, Legal, Eligible, TrimSlashes;
  }

  lemma RebindIsGood(s: System, a: Action)
    requires AllGood(s) && Enabled(s, a) && a.Rebind?
    ensures Good(After(s, a), s.command.found.value.(endpoint := a.endpoint, state := Staged))
  {
    hide LedgerRuns.Next, Legal, Eligible, TrimSlashes;
  }

  lemma AfterKeepsGood(s: System, a: Action)
    requires AllGood(s) && Excluded(s) && Enabled(s, a)
    ensures AllGood(After(s, a))
  {
    hide AllGood, Excluded, Enabled, After;
    if Writes(a) {
      WritesKeepGood(s, a);
    } else {
      OthersKeepGood(s, a);
    }
  }

  lemma AfterKeepsExclusion(s: System, a: Action)
    requires AllGood(s) && Excluded(s) && Enabled(s, a)
    ensures Excluded(After(s, a))
  {
    hide LedgerRuns.Next, Legal, Eligible, TrimSlashes;
  }

  /** Nobody is about to write a conflict away unknowingly. */
  lemma SeenIsNoConflict(s: System, c: Config)
    requires ConflictSeen(s) && c in Sees(s) && !c.state.IdentityConflict?
    ensures s.file.None? || !s.file.value.state.IdentityConflict?
  {
  }

  lemma AfterKeepsSight(s: System, a: Action)
    requires Excluded(s) && ConflictSeen(s) && Enabled(s, a)
    ensures var t := After(s, a); forall c :: c in Sees(t) && !c.state.IdentityConflict? ==>
      t.file.None? || !t.file.value.state.IdentityConflict?
  {
    hide LedgerRuns.Next, Legal, Eligible, TrimSlashes;
    var t := After(s, a);
    assert s.live.Some? && s.live.value in Sees(s) && !s.live.value.state.IdentityConflict? ==>
      s.file.None? || !s.file.value.state.IdentityConflict?;
    forall c | c in Sees(t) && !c.state.IdentityConflict?
      ensures t.file.None? || !t.file.value.state.IdentityConflict?
    {
      assert a.Save? || a.Migrate? || c in Sees(s) || Some(c) == s.file;
    }
  }

  lemma AfterKeepsRegistrant(s: System, a: Action)
    requires Excluded(s) && ConflictSeen(s) && Enabled(s, a)
    ensures var t := After(s, a); MayRegister(t.thread) ==> t.live.Some? && !t.live.value.state.IdentityConflict?
  {
    hide LedgerRuns.Next, Legal, Eligible, TrimSlashes;
    if s.live.Some? && s.live.value in Sees(s) && !s.live.value.state.IdentityConflict? {
      SeenIsNoConflict(s, s.live.value);
    }
  }

  lemma AfterKeepsFound(s: System, a: Action)
    requires Excluded(s) && ConflictSeen(s) && Enabled(s, a)
    ensures var t := After(s, a); t.command.Read? && t.command.found.Some? ==>
      t.file.Some? && t.file.value.state.IdentityConflict? == t.command.found.value.state.IdentityConflict?
  {
    hide LedgerRuns.Next, Legal, Eligible, TrimSlashes, MayRegister;
    if s.live.Some? && s.live.value in Sees(s) && !s.live.value.state.IdentityConflict? {
      SeenIsNoConflict(s, s.live.value);
    }
  }

  lemma AfterKeepsConflict(s: System, a: Action)
    requires Excluded(s) && ConflictSeen(s) && Enabled(s, a)
    ensures ConflictSeen(After(s, a))
  {
    hide Excluded, Enabled, After, MayRegister, Sees;
    AfterKeepsSight(s, a);
    AfterKeepsRegistrant(s, a);
    AfterKeepsFound(s, a);
  }

  // --- Bound rows ---

  lemma DescendantsStayBound(e: Events, f: Events, row: Row, endpoint: string)
    requires Descends(e, f) && BoundTo(e, row, endpoint)
    ensures BoundTo(f, row, endpoint)
  {
    hide TrimSlashes;
  }

  function Rebinding(s: System, c: Config): Option<Step> {
    if s.live.Some? && s.live.value.hostId != c.hostId then None else Some(Configured(s.queue, c))
  }

  /** The transaction on the queue that an action commits, if any. */
  ghost function Transaction(s: System, a: Action): Option<Step>
    requires Enabled(s, a)
  {
    match a
    case Other(step) => Some(step)
    case Begin => Some(Configured(s.queue, s.thread.read))
    case TakeOver => Rebinding(s, s.thread.read)
    case TakeOverLocked => Rebinding(s, s.thread.read)
    case Rebind(_, _, database) => if database then Some(Configured(s.queue, s.command.found.value)) else None
    case Pick(now, _) => Some(Expire(now))
    case Settle(step) => Some(step)
    case _ => None
  }

  lemma ActionsCommitSteps(s: System, a: Action)
    requires AllGood(s) && Enabled(s, a)
    ensures var step := Transaction(s, a);
      if step.None? then After(s, a).queue == s.queue
      else Legal(s.queue, step.value) && After(s, a).queue == LedgerRuns.Next(s.queue, step.value)
  {
    hide LedgerRuns.Next, Eligible, TrimSlashes;
  }

  lemma QueueKeepsInv(s: System, a: Action)
    requires Inv(s.queue) && AllGood(s) && Enabled(s, a)
    ensures Inv(After(s, a).queue) && Descends(s.queue.events, After(s, a).queue.events)
  {
    hide Inv, LedgerRuns.Next, Legal, Descends, AllGood, Enabled, After, Transaction;
    ActionsCommitSteps(s, a);
    if Transaction(s, a).Some? {
      NextKeepsInv(s.queue, Transaction(s, a).value);
      NextDescends(s.queue, Transaction(s, a).value);
    } else {
      DescendsRefl(s.queue.events);
    }
  }

  /** A row picked for an endpoint is bound to it. */
  lemma PickedIsBound(q: State, now: int, id: string, endpoint: string)
    requires Inv(q) && id in q.events.rows && Eligible(q.events.rows[id], now, TrimSlashes(endpoint))
    requires TrimSlashes(endpoint) != ""
    ensures BoundTo(q.events, q.events.rows[id], endpoint)
  {
    hide NoStaleHints, BackendOk, BindingsOk, PanesOk, Caps, UniqueRowids, Filed, Increasing, TrimSlashes;
  }

  lemma AfterKeepsBound(s: System, a: Action)
    requires Sound(s) && Enabled(s, a)
    ensures AllBound(After(s, a))
  {
    hide Inv, LedgerRuns.Next, Legal, Descends, BoundTo, TrimSlashes, Eligible;
    var e, f := s.queue.events, After(s, a).queue.events;
    QueueKeepsInv(s, a);
    if s.uploader.Picked? {
      DescendantsStayBound(e, f, s.uploader.row, s.uploader.config.endpoint);
    }
    forall x | x in s.sent ensures BoundTo(f, x.row, x.endpoint) {
      DescendantsStayBound(e, f, x.row, x.endpoint);
    }
    if a.Pick? {
      PickedIsBound(After(s, a).queue, a.now, a.id, s.uploader.config.endpoint);
    }
  }

  lemma AfterKeepsSound(s: System, a: Action)
    requires Sound(s) && Enabled(s, a)
    ensures Sound(After(s, a))
  {
    hide Inv, AllGood, Excluded, ConflictSeen, AllBound, Enabled, After;
    QueueKeepsInv(s, a);
    AfterKeepsGood(s, a);
    AfterKeepsExclusion(s, a);
    AfterKeepsConflict(s, a);
    AfterKeepsBound(s, a);
  }

  // --- Whole runs ---

  ghost predicate Interleaving(states: seq<System>, actions: seq<Action>) {
    && |states| == |actions| + 1 && Sound(states[0])
    && forall i :: 0 <= i < |actions| ==> Enabled(states[i], actions[i]) && states[i + 1] == After(states[i], actions[i])
  }

  lemma InterleavingStep(states: seq<System>, actions: seq<Action>, i: nat)
    requires Interleaving(states, actions) && i <= |actions|
    ensures |states| == |actions| + 1 && Sound(states[0])
    ensures i < |actions| ==> Enabled(states[i], actions[i]) && states[i + 1] == After(states[i], actions[i])
  {
    hide Sound, Enabled, After;
  }

  lemma {:induction false} EveryInterleavingIsSound(states: seq<System>, actions: seq<Action>, i: nat)
    requires Interleaving(states, actions) && i <= |actions|
    ensures |states| == |actions| + 1 && Sound(states[i])
  {
    hide Sound, Enabled, After, Interleaving;
    InterleavingStep(states, actions, i);
    if i > 0 {
      InterleavingStep(states, actions, i - 1);
      EveryInterleavingIsSound(states, actions, i - 1);
      AfterKeepsSound(states[i - 1], actions[i - 1]);
    }
  }

  /** What one step does to the file, whoever takes it. */
  lemma FileChanges(s: System, a: Action)
    requires Sound(s) && Enabled(s, a) && After(s, a).file != s.file
    ensures After(s, a).file.Some?
    ensures s.file.None? ==> a.Init?
    ensures s.file.Some? ==> FileChange(s, a, s.file.value, After(s, a).file.value)
  {
    hide Inv, LedgerRuns.Next, Legal, BoundTo, AllBound, Eligible, TrimSlashes;
  }

  /** The host id never changes; only switch-backend leaves a conflict; only a successful registration
      makes the file active; and the endpoint changes by switch-backend alone, unless the migration,
      which takes no lock, writes back an older one, or init writes over such a migration. */
  ghost predicate FileChange(s: System, a: Action, was: Config, now: Config) {
    && now.hostId == was.hostId
    && (was.state.IdentityConflict? && !now.state.IdentityConflict? ==> a.Commit?)
    && (now.state.Active? && !was.state.Active? ==> a == Save && s.thread == Replied(true))
    && (now.endpoint != was.endpoint ==>
          || a.Commit?
          || (a.Migrate? && s.live.Some? && s.live.value.endpoint == now.endpoint)
          || (a.Init? && s.command.Read? && s.command.found.Some? && s.command.found.value.endpoint == now.endpoint))
  }

  function EndpointOf(c: Option<Config>): Option<string> { if c.Some? then Some(c.value.endpoint) else None }

  /** A write under the lock never moves the file to another endpoint; the unlocked migration does so
      exactly when the daemon's copy is of another endpoint than the file. */
  lemma ThreadWritesKeepTheEndpoint(s: System, a: Action)
    requires Sound(s) && Enabled(s, a) && (a.Save? || a.Migrate?)
    ensures EndpointOf(After(s, a).file).Some?
    ensures EndpointOf(After(s, a).file) == EndpointOf(s.file) <==> a.Save? || EndpointOf(s.live) == EndpointOf(s.file)
  {
    hide Inv, LedgerRuns.Next, Legal, BoundTo, AllBound, Eligible, TrimSlashes;
  }

  /** Once written, the file stays, with the same host id. */
  lemma {:induction false} HostIdNeverChanges(states: seq<System>, actions: seq<Action>, i: nat, j: nat)
    requires Interleaving(states, actions) && i <= j <= |actions| && |states| == |actions| + 1 && states[i].file.Some?
    ensures states[j].file.Some? && states[j].file.value.hostId == states[i].file.value.hostId
  {
    hide Sound, Enabled, After, Interleaving;
    if i < j {
      HostIdNeverChanges(states, actions, i, j - 1);
      EveryInterleavingIsSound(states, actions, j - 1);
      InterleavingStep(states, actions, j - 1);
      if states[j].file != states[j - 1].file {
        FileChanges(states[j - 1], actions[j - 1]);
      }
    }
  }

  /** So the host check of a refresh never fails. */
  lemma RefreshIsNeverRefused(s: System)
    requires Sound(s) && (s.thread.Loaded? || s.thread.Reloaded?)
    ensures s.live.Some? && s.live.value.hostId == s.thread.read.hostId
  {
    hide Inv, BoundTo, TrimSlashes;
  }

  /** A registration of host and endpoint succeeded by step i, or had before the first. */
  ghost predicate Registered(states: seq<System>, actions: seq<Action>, i: nat, host: string, endpoint: string)
    requires i <= |actions| && |states| == |actions| + 1
  {
    (host, endpoint) in states[0].registered
    || exists k :: 0 <= k < i && actions[k] == Reply(true) && states[k].live.Some?
         && states[k].live.value.hostId == host && states[k].live.value.endpoint == endpoint
  }

  lemma RegistrationsGrow(s: System, a: Action, host: string, endpoint: string)
    requires Enabled(s, a) && (host, endpoint) in After(s, a).registered
    ensures (host, endpoint) in s.registered
      || (a == Reply(true) && s.live.Some? && s.live.value.hostId == host && s.live.value.endpoint == endpoint)
  {
    hide LedgerRuns.Next, Legal, Eligible, TrimSlashes;
  }

  lemma {:induction false} RegistrationsHappened(states: seq<System>, actions: seq<Action>, i: nat,
    host: string, endpoint: string)
    requires Interleaving(states, actions) && i <= |actions| && |states| == |actions| + 1
    requires (host, endpoint) in states[i].registered
    ensures Registered(states, actions, i, host, endpoint)
  {
    hide Sound, Enabled, After, Interleaving;
    if i > 0 {
      InterleavingStep(states, actions, i - 1);
      RegistrationsGrow(states[i - 1], actions[i - 1], host, endpoint);
      if (host, endpoint) in states[i - 1].registered {
        RegistrationsHappened(states, actions, i - 1, host, endpoint);
      }
    }
  }

  /** The file is active only for an endpoint at which its host was registered. */
  lemma ActiveIsRegistered(states: seq<System>, actions: seq<Action>, i: nat)
    requires Interleaving(states, actions) && i <= |actions| && |states| == |actions| + 1
    requires states[i].file.Some? && states[i].file.value.state.Active?
    ensures Registered(states, actions, i, states[i].file.value.hostId, states[i].file.value.endpoint)
  {
    hide Interleaving, Inv, BoundTo, TrimSlashes;
    EveryInterleavingIsSound(states, actions, i);
    RegistrationsHappened(states, actions, i, states[i].file.value.hostId, states[i].file.value.endpoint);
  }

  lemma {:induction false} SentGrows(states: seq<System>, actions: seq<Action>, i: nat, j: nat)
    requires Interleaving(states, actions) && i <= j <= |actions| && |states| == |actions| + 1
    ensures states[i].sent <= states[j].sent
  {
    hide Sound, Interleaving, LedgerRuns.Next, Legal, Eligible, TrimSlashes;
    if i < j {
      SentGrows(states, actions, i, j - 1);
      InterleavingStep(states, actions, j - 1);
    }
  }

  /** Every send, at any step i of any interleaving, is under an active configuration, to an endpoint
      registered by then, of an event bound to that endpoint at every later time j. */
  lemma SendsAreBound(states: seq<System>, actions: seq<Action>, i: nat, j: nat)
    requires Interleaving(states, actions) && i < j <= |actions| && |states| == |actions| + 1 && actions[i] == Send
    ensures states[i].uploader.Picked?
    ensures var u := states[i].uploader;
      && u.config.state.Active? && Registered(states, actions, i, u.config.hostId, u.config.endpoint)
      && BoundTo(states[j].queue.events, u.row, u.config.endpoint)
  {
    hide Interleaving, Inv, BoundTo, TrimSlashes, LedgerRuns.Next, Legal, Eligible, Registered;
    EveryInterleavingIsSound(states, actions, i);
    EveryInterleavingIsSound(states, actions, j);
    InterleavingStep(states, actions, i);
    var u := states[i].uploader;
    RegistrationsHappened(states, actions, i, u.config.hostId, u.config.endpoint);
    SentGrows(states, actions, i + 1, j);
    var x := Sent(u.config.hostId, u.config.endpoint, u.id, u.row);
    assert states[i + 1].sent[|states[i].sent|] == x;
    assert states[j].sent[|states[i].sent|] == x;
  }

  // --- The unlocked migration ---

  /** The daemon starts and reads its file; the command switches; the daemon migrates. */
  function Race(to: string): seq<Action> {
    [Serve, Begin, Load, TakeOver, Enter, Inspect, Rebind(to, false, true), Commit, Migrate]
  }

  /** A host of an older release before its daemon starts. */
  ghost predicate Legacy(s: System, c: Config) {
    Initial(s) && s.file == Some(c) && c.state.NeedsSetupToken?
  }

  lemma LegacyHostsExist(c: Config) returns (s: System)
    requires Wellformed(c) && c.state.NeedsSetupToken?
    ensures Legacy(s, c)
  {
    hide Inv;
    StartIsSound();
    s := System(Some(c), None, Off, Out, Resting, EMPTY, {}, []);
  }

  lemma DaemonReads(s: System, c: Config) returns (s1: System, s2: System, s3: System, s4: System)
    requires Legacy(s, c)
    ensures Enabled(s, Serve) && s1 == After(s, Serve)
    ensures Enabled(s1, Begin) && s2 == After(s1, Begin)
    ensures Enabled(s2, Load) && s3 == After(s2, Load)
    ensures Enabled(s3, TakeOver) && s4 == After(s3, TakeOver)
    ensures s4.file == s4.live == Some(c) && s4.thread.Refreshed? && s4.command.Out?
  {
    hide LedgerRuns.Next, Legal, Eligible, TrimSlashes, Inv;
    s1 := s.(thread := Starting(c));
    var step := Configured(s.queue, c);
    s2 := s1.(live := Some(c), queue := LedgerRuns.Next(s.queue, step), thread := Idle);
    s3 := s2.(thread := Loaded(c));
    s4 := s3.(queue := LedgerRuns.Next(s3.queue, Configured(s3.queue, c)), thread := Refreshed);
  }

  lemma CommandSwitches(s: System, c: Config, to: string) returns (s1: System, s2: System, s3: System, s4: System)
    requires s.file == Some(c) && s.thread.Refreshed? && s.command.Out? && TrimSlashes(to) != "" && c.state.NeedsSetupToken?
    ensures Enabled(s, Enter) && s1 == After(s, Enter)
    ensures Enabled(s1, Inspect) && s2 == After(s1, Inspect)
    ensures Enabled(s2, Rebind(to, false, true)) && s3 == After(s2, Rebind(to, false, true))
    ensures Enabled(s3, Commit) && s4 == After(s3, Commit)
    ensures s4.file == Some(Config(c.hostId, to, Staged)) && s4.live == s.live && s4.thread == s.thread
  {
    hide LedgerRuns.Next, Legal, Eligible, TrimSlashes;
    s1 := s.(command := In);
    s2 := s1.(command := Read(Some(c)));
    s3 := s2.(queue := LedgerRuns.Next(s.queue, Configured(s.queue, c)), command := Switching(Config(c.hostId, to, Staged)));
    s4 := s3.(file := Some(Config(c.hostId, to, Staged)), command := Out);
  }

  lemma LegacyIsSound(s: System, c: Config)
    requires Legacy(s, c)
    ensures Sound(s) && c.state.NeedsSetupToken?
  {
    hide Sound, Initial;
    InitialIsSound(s);
  }

  lemma MigrateStep(s: System)
    requires s.thread.Refreshed? && s.live.Some? && s.live.value.state.NeedsSetupToken?
    ensures Enabled(s, Migrate)
    ensures After(s, Migrate) ==
      s.(file := Some(s.live.value.(state := Staged)), live := Some(s.live.value.(state := Staged)), thread := Idle)
  {
  }

  /** For any legacy host and any other endpoint, this interleaving undoes a finished switch: the switch
      writes the new endpoint and the migration writes the old one back. */
  lemma MigrationCanUndoSwitch(s: System, c: Config, to: string) returns (states: seq<System>)
    requires Legacy(s, c) && TrimSlashes(to) != "" && to != c.endpoint
    ensures Interleaving(states, Race(to)) && states[0] == s
    ensures states[8].file == Some(Config(c.hostId, to, Staged))
    ensures states[9].file == Some(c.(state := Staged))
  {
    hide Sound, Enabled, After, Legacy, Initial;
    LegacyIsSound(s, c);
    var s1, s2, s3, s4 := DaemonReads(s, c);
    var s5, s6, s7, s8 := CommandSwitches(s4, c, to);
    var s9 := s8.(file := Some(c.(state := Staged)), live := Some(c.(state := Staged)), thread := Idle);
    MigrateStep(s8);
    states := [s, s1, s2, s3, s4, s5, s6, s7, s8, s9];
    NineSteps(states, Race(to));
  }

  lemma NineSteps(states: seq<System>, actions: seq<Action>)
    requires |states| == 10 && |actions| == 9 && Sound(states[0])
    requires Enabled(states[0], actions[0]) && states[1] == After(states[0], actions[0])
    requires Enabled(states[1], actions[1]) && states[2] == After(states[1], actions[1])
    requires Enabled(states[2], actions[2]) && states[3] == After(states[2], actions[2])
    requires Enabled(states[3], actions[3]) && states[4] == After(states[3], actions[3])
    requires Enabled(states[4], actions[4]) && states[5] == After(states[4], actions[4])
    requires Enabled(states[5], actions[5]) && states[6] == After(states[5], actions[5])
    requires Enabled(states[6], actions[6]) && states[7] == After(states[6], actions[6])
    requires Enabled(states[7], actions[7]) && states[8] == After(states[7], actions[7])
    requires Enabled(states[8], actions[8]) && states[9] == After(states[8], actions[8])
    ensures Interleaving(states, actions)
  {
    hide Sound, Enabled, After;
  }
}
