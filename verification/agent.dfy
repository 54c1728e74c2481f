/** The agent's enrollment code as a class: each method, left alone, takes steps of the protocol. */
module AgentProcess {
  import opened Options
  import opened AgentConfig
  import opened Ledger
  import opened LedgerInvariant
  import opened LedgerRuns
  import opened DurableQueue
  import opened Enrollment

  /** The enabled actions lead from s to t. */
  ghost predicate Acts(s: System, actions: seq<Action>, t: System)
    decreases |actions|
  {
    if actions == [] then t == s
    else Enabled(s, actions[0]) && Acts(Enrollment.After(s, actions[0]), actions[1..], t)
  }

  lemma NoAct(s: System)
    ensures Acts(s, [], s)
  {
  }

  lemma {:induction false} OneActMore(s: System, actions: seq<Action>, t: System, a: Action)
    requires Acts(s, actions, t) && Enabled(t, a)
    ensures Acts(s, actions + [a], Enrollment.After(t, a))
    decreases |actions|
  {
    hide Enabled, Enrollment.After;
    if actions == [] {
      assert ([] + [a])[1..] == [];
    } else {
      OneActMore(Enrollment.After(s, actions[0]), actions[1..], t, a);
      assert (actions + [a])[1..] == actions[1..] + [a];
    }
  }

  lemma {:induction false} ActsJoin(s: System, first: seq<Action>, t: System, second: seq<Action>, u: System)
    requires Acts(s, first, t) && Acts(t, second, u)
    ensures Acts(s, first + second, u)
    decreases |first|
  {
    hide Enabled, Enrollment.After;
    if first == [] {
      assert first + second == second;
    } else {
      ActsJoin(Enrollment.After(s, first[0]), first[1..], t, second, u);
      assert (first + second)[1..] == first[1..] + second;
    }
  }

  lemma {:induction false} ActsKeepSound(s: System, actions: seq<Action>, t: System)
    requires Enrollment.Sound(s) && Acts(s, actions, t)
    ensures Enrollment.Sound(t)
    decreases |actions|
  {
    hide Enabled, Enrollment.After, Enrollment.Sound;
    if actions != [] {
      AfterKeepsSound(s, actions[0]);
      ActsKeepSound(Enrollment.After(s, actions[0]), actions[1..], t);
    }
  }

  /** The steps of a locked refresh. */
  lemma LockIsEnabled(s: System, attempt: bool, again: bool)
    requires s.command.Out? && s.live.Some?
    requires
      if attempt then !again && (s.thread.Ready? || (s.thread.Refreshed? && s.live.value.state.Staged?))
      else s.thread.Refreshed? && (if again then s.live.value.state.Active? else s.live.value.state.IdentityConflict?)
    ensures Enabled(s, Lock) && Enrollment.After(s, Lock) == s.(thread := Locked(attempt, again))
  {
  }

  lemma UnlockIsEnabled(s: System)
    requires ThreadHolds(s.thread)
    ensures Enabled(s, Unlock)
    ensures Enrollment.After(s, Unlock) ==
      s.(thread := if (s.thread.Locked? || s.thread.Reloaded?) && s.thread.again then Ready else Idle)
  {
  }

  lemma ReloadIsEnabled(s: System)
    requires s.thread.Locked? && s.file.Some?
    ensures Enabled(s, Enrollment.Reload)
    ensures Enrollment.After(s, Enrollment.Reload) == s.(thread := Reloaded(s.file.value, s.thread.attempt, s.thread.again))
  {
  }

  lemma TakeOverIsEnabled(s: System)
    requires Enrollment.Sound(s) && s.thread.Reloaded?
    ensures Enabled(s, TakeOverLocked) && s.file == Some(s.thread.read)
    ensures Enrollment.After(s, TakeOverLocked) ==
      s.(live := s.file, queue := LedgerRuns.Next(s.queue, Configure(TrimSlashes(s.thread.read.endpoint))),
         thread := if s.thread.attempt then Attempting else if s.thread.again then Ready else Idle)
  {
    hide LedgerRuns.Next, TrimSlashes, Inv, AllBound, ConflictSeen;
  }

  lemma ReplyIsEnabled(s: System, ok: bool)
    requires s.thread.Attempting? && s.live.Some?
    ensures Enabled(s, Reply(ok))
    ensures Enrollment.After(s, Reply(ok)) ==
      s.(registered := if ok then s.registered + {(s.live.value.hostId, s.live.value.endpoint)} else s.registered,
         thread := Replied(ok))
  {
  }

  lemma SaveIsEnabled(s: System)
    requires s.thread.Replied? && s.live.Some?
    ensures Enabled(s, Enrollment.Save)
    ensures Enrollment.After(s, Enrollment.Save) == Saved(s, if s.thread.ok then Active else IdentityConflict)
  {
  }

  lemma CommitIsEnabled(s: System)
    requires s.command.Switching?
    ensures Enabled(s, Commit) && Enrollment.After(s, Commit) == s.(file := Some(s.command.next), command := Out)
  {
  }

  datatype Answer = Registers | Conflicts | Fails
  datatype Outcome = Waiting | Succeeded | Retry

  /** Which of the calls into the system fail: the lock, reading the file or the key, the queue, writing. */
  datatype Faults = Faults(lock: bool, load: bool, key: bool, queue: bool, save: bool)

  predicate Refreshes(f: Faults) { !f.load && !f.queue }

  predicate Holds(f: Faults) { !f.lock && Refreshes(f) }

  /** The attempt writes the file. */
  predicate Settles(answer: Answer, f: Faults) { Holds(f) && !answer.Fails? && !f.save }

  /** What an attempt leaves of a configuration. */
  function Attempted(c: Config, answer: Answer, f: Faults): Config {
    if !Settles(answer, f) then c else c.(state := if answer.Registers? then Active else IdentityConflict)
  }

  class Agent {
    var file: Option<Config>
    var live: Option<Config>
    var thread: Thread
    const queue: Queue
    ghost var command: Command
    ghost var uploader: Uploader
    ghost var registered: set<(string, string)>
    ghost var sent: seq<Sent>

    ghost function View(): System
      reads this, queue
    {
      System(file, live, thread, command, uploader, queue.View(), registered, sent)
    }

    constructor (file: Option<Config>, queue: Queue)
      ensures View() == System(file, None, Off, Out, Resting, queue.View(), {}, []) && this.queue == queue
    {
      this.file, live, thread, this.queue := file, None, Off, queue;
      command, uploader, registered, sent := Out, Resting, {}, [];
    }

    // --- The enrollment thread ---

    /** One step of the thread that touches neither file nor queue. */
    method Move(a: Action, t: Thread, ghost s: System, ghost acts: seq<Action>) returns (ghost more: seq<Action>)
      requires Acts(s, acts, View()) && Enabled(View(), a) && Enrollment.After(View(), a) == View().(thread := t)
      modifies this`thread
      ensures thread == t && more == acts + [a] && Acts(s, more, View())
    {
      hide Acts, Enabled, Enrollment.After;
      OneActMore(s, acts, View(), a);
      thread := t;
      more := acts + [a];
    }

    /** refreshConfig, without the lock: after it, or not at all, the daemon's copy is the file. */
    method RefreshConfig(faults: Faults) returns (ok: bool, ghost acts: seq<Action>)
      requires Enrollment.Sound(View()) && thread.Idle? && file.Some?
      modifies this`live, this`thread, queue
      ensures Acts(old(View()), acts, View()) && Enrollment.Sound(View())
      ensures ok <==> Refreshes(faults)
      ensures if ok then
                && live == file && thread.Refreshed?
                && queue.View() == LedgerRuns.Next(old(queue.View()), Configure(TrimSlashes(file.value.endpoint)))
              else live == old(live) && thread.Idle? && queue.View() == old(queue.View())
    {
      hide Acts, Enrollment.Sound, LedgerRuns.Next, Inv;
      ghost var s := View();
      NoAct(s);
      acts := [];
      if faults.load {
        return false, acts;
      }
      var config := file.value;
      acts := Move(Load, Loaded(config), s, acts);
      ActsKeepSound(s, acts, View());
      RefreshIsNeverRefused(View());
      if live.Some? && config.hostId != live.value.hostId {
        return false, acts;
      }
      if faults.queue {
        acts := Move(Skip, Idle, s, acts);
        ActsKeepSound(s, acts, View());
        return false, acts;
      }
      OneActMore(s, acts, View(), TakeOver);
      queue.ConfigureBackend(config.endpoint);
      live, thread := Some(config), Refreshed;
      ok, acts := true, acts + [TakeOver];
      ActsKeepSound(s, acts, View());
    }

    method SaveRegistrationState(state: Registration, fails: bool) returns (ok: bool)
      requires live.Some?
      modifies this`file, this`live
      ensures ok <==> !fails
      ensures if ok then live == file == Some(old(live).value.(state := state)) else live == old(live) && file == old(file)
    {
      if fails {
        return false;
      }
      var config := live.value.(state := state);
      file, live := Some(config), Some(config);
      return true;
    }

    /** The lock and the refresh under it, for an attempt or for discarding a legacy token. */
    method RefreshLocked(attempt: bool, again: bool, faults: Faults) returns (ok: bool, ghost acts: seq<Action>)
      requires Enrollment.Sound(View()) && command.Out? && file.Some? && live.Some? && !faults.lock
      requires
        if attempt then !again && (thread.Ready? || (thread.Refreshed? && live.value.state.Staged?))
        else thread.Refreshed? && (if again then live.value.state.Active? else live.value.state.IdentityConflict?)
      modifies this`live, this`thread, queue
      ensures Acts(old(View()), acts, View()) && Enrollment.Sound(View())
      ensures ok <==> Refreshes(faults)
      ensures live == if ok then file else old(live)
      ensures queue.View() ==
        if ok then LedgerRuns.Next(old(queue.View()), Configure(TrimSlashes(file.value.endpoint))) else old(queue.View())
      ensures thread == if ok && attempt then Attempting else if again then Ready else Idle
    {
      hide Acts, Enrollment.Sound, LedgerRuns.Next, Inv, Enabled, Enrollment.After;
      ghost var s := View();
      NoAct(s);
      LockIsEnabled(s, attempt, again);
      acts := Move(Lock, Locked(attempt, again), s, []);
      var rest := if again then Ready else Idle;
      if faults.load {
        UnlockIsEnabled(View());
        acts := Move(Unlock, rest, s, acts);
        ActsKeepSound(s, acts, View());
        return false, acts;
      }
      ReloadIsEnabled(View());
      acts := Move(Enrollment.Reload, Reloaded(file.value, attempt, again), s, acts);
      if faults.queue {
        UnlockIsEnabled(View());
        acts := Move(Unlock, rest, s, acts);
        ActsKeepSound(s, acts, View());
        return false, acts;
      }
      ActsKeepSound(s, acts, View());
      TakeOverIsEnabled(View());
      OneActMore(s, acts, View(), TakeOverLocked);
      queue.ConfigureBackend(file.value.endpoint);
      live, thread := file, if attempt then Attempting else rest;
      ok, acts := true, acts + [TakeOverLocked];
      ActsKeepSound(s, acts, View());
    }

    /** attemptEnrollment; answer is what the backend replies to the registration. The lock is held for all
        of it: the endpoint of the file is the one registered at and the one written back. */
    method AttemptEnrollment(answer: Answer, faults: Faults) returns (result: Outcome, ghost acts: seq<Action>)
      requires Enrollment.Sound(View()) && command.Out? && file.Some? && live.Some?
      requires thread.Ready? || (thread.Refreshed? && live.value.state.Staged?)
      modifies this`live, this`thread, this`file, this`registered, queue
      ensures Acts(old(View()), acts, View()) && Enrollment.Sound(View()) && thread.Idle?
      ensures result == if !Settles(answer, faults) then Retry else if answer.Registers? then Succeeded else Waiting
      ensures file == Some(Attempted(old(file).value, answer, faults))
      ensures live == if Holds(faults) then file else old(live)
      ensures registered == old(registered) +
        if Holds(faults) && answer.Registers? then {(old(file).value.hostId, old(file).value.endpoint)} else {}
    {
      hide Acts, Enrollment.Sound, LedgerRuns.Next, Inv;
      ghost var s := View();
      if faults.lock {
        NoAct(s);
        acts := Move(Skip, Idle, s, []);
        ActsKeepSound(s, acts, View());
        return Retry, acts;
      }
      var ok;
      ok, acts := RefreshLocked(true, false, faults);
      if !ok {
        return Retry, acts;
      }
      ghost var t := View();
      ghost var more;
      result, more := Conclude(answer, faults.save);
      ActsJoin(s, acts, t, more, View());
      acts := acts + more;
      ActsKeepSound(s, acts, View());
    }

    /** The reply of the backend, and what it writes. */
    method Conclude(answer: Answer, fails: bool) returns (result: Outcome, ghost acts: seq<Action>)
      requires thread.Attempting? && live.Some? && live == file
      modifies this`live, this`thread, this`file, this`registered
      ensures Acts(old(View()), acts, View()) && thread.Idle? && file == live
      ensures result == if answer.Fails? || fails then Retry else if answer.Registers? then Succeeded else Waiting
      ensures file == Some(if answer.Fails? || fails then old(file).value
                           else old(file).value.(state := if answer.Registers? then Active else IdentityConflict))
      ensures registered == old(registered) +
        if answer.Registers? then {(old(file).value.hostId, old(file).value.endpoint)} else {}
    {
      hide Acts, LedgerRuns.Next, Enabled, Enrollment.After;
      ghost var s := View();
      NoAct(s);
      if answer.Fails? {
        UnlockIsEnabled(s);
        acts := Move(Unlock, Idle, s, []);
        return Retry, acts;
      }
      ReplyIsEnabled(s, answer.Registers?);
      OneActMore(s, [], View(), Reply(answer.Registers?));
      if answer.Registers? {
        registered := registered + {(live.value.hostId, live.value.endpoint)};
      }
      thread := Replied(answer.Registers?);
      acts := [] + [Reply(answer.Registers?)];
      if fails {
        UnlockIsEnabled(View());
        acts := Move(Unlock, Idle, s, acts);
        return Retry, acts;
      }
      SaveIsEnabled(View());
      OneActMore(s, acts, View(), Enrollment.Save);
      var _ := SaveRegistrationState(if answer.Registers? then Active else IdentityConflict, false);
      thread := Idle;
      acts := acts + [Enrollment.Save];
      return if answer.Registers? then Succeeded else Waiting, acts;
    }

    /** discardLegacySetupTokenForState: a refresh under the lock, before an attempt or instead of one. */
    method Discard(faults: Faults) returns (ghost acts: seq<Action>)
      requires Enrollment.Sound(View()) && command.Out? && thread.Refreshed? && file.Some? && live == file
      requires live.value.state.Active? || live.value.state.IdentityConflict?
      modifies this`live, this`thread, queue
      ensures Acts(old(View()), acts, View()) && Enrollment.Sound(View())
      ensures live == file && thread == if file.value.state.Active? then Ready else Idle
    {
      hide Acts, Enrollment.Sound, LedgerRuns.Next, Inv;
      ghost var s := View();
      var again := live.value.state.Active?;
      if faults.lock {
        NoAct(s);
        acts := Move(Skip, if again then Ready else Idle, s, []);
        ActsKeepSound(s, acts, View());
      } else {
        var refreshed;
        refreshed, acts := RefreshLocked(false, again, faults);
      }
    }

    /** The migration of the legacy state, which takes no lock. */
    method MigrateState(faults: Faults) returns (ghost acts: seq<Action>)
      requires Enrollment.Sound(View()) && thread.Refreshed? && live.Some? && live.value.state.NeedsSetupToken?
      modifies this`live, this`thread, this`file
      ensures Acts(old(View()), acts, View()) && Enrollment.Sound(View()) && thread.Idle?
      ensures if faults.save then live == old(live) && file == old(file)
              else live == file == Some(old(live).value.(state := Staged))
    {
      hide Acts, Enrollment.Sound, LedgerRuns.Next, Inv;
      ghost var s := View();
      NoAct(s);
      OneActMore(s, [], s, if faults.save then Skip else Migrate);
      var _ := SaveRegistrationState(Staged, faults.save);
      thread := Idle;
      acts := [] + [if faults.save then Skip else Migrate];
      ActsKeepSound(s, acts, View());
    }

    /** One pass of enrollmentLoop: what the file holds afterwards, and whether an active registration is
        still to be refreshed. Each of its parts may fail on its own. */
    method EnrollmentPass(refreshActive: bool, answer: Answer, refresh: Faults, discard: Faults, attempt: Faults)
      returns (refreshLater: bool, ghost acts: seq<Action>)
      requires Enrollment.Sound(View()) && command.Out? && thread.Idle? && file.Some?
      modifies this`live, this`thread, this`file, this`registered, queue
      ensures Acts(old(View()), acts, View()) && Enrollment.Sound(View()) && thread.Idle? && file.Some?
      ensures var c := old(file).value;
        var attempts := Refreshes(refresh) && (c.state.Staged? || (c.state.Active? && refreshActive));
        && file.value ==
             (if attempts then Attempted(c, answer, attempt)
              else if Refreshes(refresh) && c.state.NeedsSetupToken? && !attempt.save then c.(state := Staged)
              else c)
        && (refreshLater <==>
             refreshActive && !(attempts && Settles(answer, attempt) && (answer.Registers? || c.state.Active?)))
    {
      hide Acts, Enrollment.Sound, LedgerRuns.Next, Inv, Enabled, Enrollment.After;
      ghost var s := View();
      refreshLater := refreshActive;
      var ok;
      ok, acts := RefreshConfig(refresh);
      if !ok {
        return;
      }
      ghost var t, more := View(), acts;
      match live.value.state {
        case Active =>
          more := Discard(discard);
          ActsJoin(s, acts, t, more, View());
          acts, t := acts + more, View();
          if refreshActive {
            var result;
            result, more := AttemptEnrollment(answer, attempt);
            refreshLater := result.Retry?;
          } else {
            more := StopWaiting();
          }
        case IdentityConflict =>
          more := Discard(discard);
        case NeedsSetupToken =>
          more := MigrateState(attempt);
        case Staged =>
          var result;
          result, more := AttemptEnrollment(answer, attempt);
          refreshLater := refreshActive && !result.Succeeded?;
      }
      ActsJoin(s, acts, t, more, View());
      acts := acts + more;
    }

    method StopWaiting() returns (ghost acts: seq<Action>)
      requires Enrollment.Sound(View()) && thread.Ready?
      modifies this`thread
      ensures Acts(old(View()), acts, View()) && Enrollment.Sound(View()) && thread.Idle?
    {
      hide Acts, Enrollment.Sound;
      ghost var s := View();
      NoAct(s);
      acts := Move(Skip, Idle, s, []);
      ActsKeepSound(s, acts, View());
    }

    // --- The commands ---

    method EnterAndRead() returns (ghost acts: seq<Action>)
      requires command.Out? && !ThreadHolds(thread)
      modifies this`command
      ensures Acts(old(View()), acts, View()) && command == Read(file)
    {
      hide Acts;
      ghost var s := View();
      NoAct(s);
      OneActMore(s, [], View(), Enter);
      command := In;
      acts := [] + [Enter];
      OneActMore(s, acts, View(), Inspect);
      command := Read(file);
      acts := acts + [Inspect];
    }

    method Exit(ghost s: System, ghost acts: seq<Action>) returns (ghost more: seq<Action>)
      requires Enrollment.Sound(s) && Acts(s, acts, View())
      modifies this`command
      ensures command.Out? && Acts(s, more, View()) && Enrollment.Sound(View())
    {
      hide Acts, Enrollment.Sound;
      OneActMore(s, acts, View(), Leave);
      command := Out;
      more := acts + [Leave];
      ActsKeepSound(s, more, View());
    }

    /** novascale-agent init; newHost is the random id of a new host. */
    method RunInit(endpoint: string, newHost: string, faults: Faults) returns (ok: bool, ghost acts: seq<Action>)
      requires Enrollment.Sound(View()) && command.Out? && !ThreadHolds(thread) && newHost != ""
      modifies this`file, this`command
      ensures Acts(old(View()), acts, View()) && Enrollment.Sound(View()) && command.Out?
      ensures ok <==>
        && !faults.lock && !faults.load && !faults.key
        && if old(file).None? then TrimSlashes(endpoint) != "" && !faults.save
           else
             && (endpoint == "" || TrimSlashes(old(file).value.endpoint) == TrimSlashes(endpoint))
             && (old(file).value.state.Active? || !faults.save)
      ensures file ==
        if !ok then old(file)
        else if old(file).None? then Some(Config(newHost, endpoint, Staged))
        else if old(file).value.state.NeedsSetupToken? then Some(old(file).value.(state := Staged))
        else old(file)
    {
      hide Acts, Enrollment.Sound, Inv;
      ghost var s := View();
      NoAct(s);
      acts := [];
      if faults.lock {
        return false, acts;
      }
      acts := EnterAndRead();
      ok := !faults.load && !faults.key &&
        if file.None? then TrimSlashes(endpoint) != ""
        else endpoint == "" || SameEndpoint(file.value.endpoint, endpoint);
      if !ok || (file.Some? && file.value.state.Active?) {
        acts := Exit(s, acts);
        return;
      }
      if faults.save {
        acts := Exit(s, acts);
        return false, acts;
      }
      OneActMore(s, acts, View(), Enrollment.Init(endpoint, newHost));
      acts := acts + [Enrollment.Init(endpoint, newHost)];
      if file.None? {
        file := Some(Config(newHost, endpoint, Staged));
      } else if file.value.state.NeedsSetupToken? {
        file := Some(file.value.(state := Staged));
      }
      command := Out;
      ActsKeepSound(s, acts, View());
    }

    /** novascale-agent switch-backend; database says whether there is one. The switch is made exactly if it
        is forced, the registration is not active or the endpoint is another one; unassigned events are then
        bound to the old endpoint, also if the file cannot be written. */
    method RunSwitchBackend(endpoint: string, force: bool, database: bool, faults: Faults)
      returns (ok: bool, ghost acts: seq<Action>)
      requires Enrollment.Sound(View()) && command.Out? && !ThreadHolds(thread)
      modifies this`file, this`command, queue
      ensures Acts(old(View()), acts, View()) && Enrollment.Sound(View()) && command.Out?
      ensures ok <==>
        && !faults.lock && !faults.load && !faults.key && old(file).Some? && TrimSlashes(endpoint) != ""
        && ((!force && old(file).value.state.Active? && TrimSlashes(old(file).value.endpoint) == TrimSlashes(endpoint))
            || (!(database && faults.queue) && !faults.save))
      ensures ok && (force || !old(file).value.state.Active? || TrimSlashes(old(file).value.endpoint) != TrimSlashes(endpoint)) ==>
        file == Some(Config(old(file).value.hostId, endpoint, Staged))
      ensures !ok || (!force && old(file).value.state.Active? && TrimSlashes(old(file).value.endpoint) == TrimSlashes(endpoint)) ==>
        file == old(file)
      ensures queue.View() ==
        if !faults.lock && !faults.load && !faults.key && old(file).Some? && TrimSlashes(endpoint) != ""
           && (force || !old(file).value.state.Active? || TrimSlashes(old(file).value.endpoint) != TrimSlashes(endpoint))
           && database && !faults.queue
        then LedgerRuns.Next(old(queue.View()), Configure(TrimSlashes(old(file).value.endpoint)))
        else old(queue.View())
    {
      hide Acts, Enrollment.Sound, LedgerRuns.Next, Inv, TrimSlashes;
      ghost var s := View();
      NoAct(s);
      acts := [];
      if faults.lock {
        return false, acts;
      }
      acts := EnterAndRead();
      ok := !faults.load && !faults.key && file.Some? && TrimSlashes(endpoint) != "";
      if !ok || (!force && file.value.state.Active? && SameEndpoint(file.value.endpoint, endpoint)) {
        acts := Exit(s, acts);
        return;
      }
      if database && faults.queue {
        acts := Exit(s, acts);
        return false, acts;
      }
      ghost var t := View();
      ghost var more := BindAndStage(endpoint, force, database);
      ActsJoin(s, acts, t, more, View());
      acts := acts + more;
      if faults.save {
        acts := Exit(s, acts);
        return false, acts;
      }
      CommitIsEnabled(View());
      OneActMore(s, acts, View(), Commit);
      file, command := Some(Config(file.value.hostId, endpoint, Staged)), Out;
      acts := acts + [Commit];
      ActsKeepSound(s, acts, View());
    }

    /** Bind the unassigned events to the old endpoint before the new configuration is written. */
    method BindAndStage(endpoint: string, force: bool, database: bool) returns (ghost acts: seq<Action>)
      requires file.Some? && command == Read(file) && TrimSlashes(endpoint) != ""
      requires force || !file.value.state.Active? || !SameEndpoint(file.value.endpoint, endpoint)
      modifies this`command, queue
      ensures Acts(old(View()), acts, View())
      ensures command == Switching(Config(file.value.hostId, endpoint, Staged))
      ensures queue.View() ==
        if database then LedgerRuns.Next(old(queue.View()), Configure(TrimSlashes(file.value.endpoint))) else old(queue.View())
    {
      hide Acts, LedgerRuns.Next;
      ghost var s := View();
      NoAct(s);
      OneActMore(s, [], s, Rebind(endpoint, force, database));
      if database {
        queue.ConfigureBackend(file.value.endpoint);
      }
      command := Switching(file.value.(endpoint := endpoint, state := Staged));
      acts := [] + [Rebind(endpoint, force, database)];
    }
  }
}
