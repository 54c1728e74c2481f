/** The editor of the Codex hooks file, over a structured view of the document. */
module HookConfig {
  import opened Options

  /** kind and command are empty where the field is missing or not a string; other is everything else. */
  datatype Handler = Handler(kind: string, command: string, other: int)

  /** A group is malformed when its hooks field is missing or not an array of objects. */
  datatype Group = Malformed(other: int) | Group(handlers: seq<Handler>, other: int)

  datatype Entry = Array(groups: seq<Group>) | NotAnArray

  type Entries = map<string, Entry>

  datatype Field = Object(entries: Entries) | NotAnObject

  datatype Document = Document(hooks: Option<Field>, other: int)

  datatype Result = Failed | Unchanged | Saved(document: Document)

  datatype Edit = Edit(hooks: Entries, changed: bool)

  const EVENTS: seq<string> := ["PermissionRequest", "Stop"]

  function HandlerCommand(h: Handler): string { if h.kind == "command" then h.command else "" }

  function NewGroup(command: string): Group { Group([Handler("command", command, 0)], 0) }

  function GroupsFor(hooks: Entries, event: string): Option<seq<Group>> {
    if event !in hooks then Some([]) else if hooks[event].Array? then Some(hooks[event].groups) else None
  }

  function HooksObject(d: Document): Option<Entries> {
    if d.hooks.None? then Some(map[]) else if d.hooks.value.Object? then Some(d.hooks.value.entries) else None
  }

  predicate Handles(handlers: seq<Handler>, command: string) { exists h :: h in handlers && HandlerCommand(h) == command }

  predicate Runs(g: Group, command: string) { g.Group? && Handles(g.handlers, command) }

  predicate Contains(groups: seq<Group>, command: string) { exists g :: g in groups && Runs(g, command) }

  predicate HasMalformed(groups: seq<Group>) { exists g :: g in groups && g.Malformed? }

  /** The handlers of other commands, in order. */
  function Without(handlers: seq<Handler>, command: string): seq<Handler> {
    if handlers == [] then []
    else
      var n := |handlers| - 1;
      Without(handlers[..n], command) + (if HandlerCommand(handlers[n]) == command then [] else [handlers[n]])
  }

  /** The groups without the command; groups left or found empty go. */
  function Stripped(groups: seq<Group>, command: string): seq<Group>
    requires !HasMalformed(groups)
  {
    if groups == [] then []
    else
      var n := |groups| - 1;
      var kept := Without(groups[n].handlers, command);
      Stripped(groups[..n], command) + (if kept == [] then [] else [groups[n].(handlers := kept)])
  }

  function Installing(hooks: Entries, events: seq<string>, command: string): Option<Edit>
    decreases |events|
  {
    if events == [] then Some(Edit(hooks, false))
    else
      var n := |events| - 1;
      var before := Installing(hooks, events[..n], command);
      if before.None? then None
      else
        var e := before.value;
        var groups := GroupsFor(e.hooks, events[n]);
        if groups.None? then None
        else if Contains(groups.value, command) then Some(e)
        else Some(Edit(e.hooks[events[n] := Array(groups.value + [NewGroup(command)])], true))
  }

  function Uninstalling(hooks: Entries, events: seq<string>, command: string): Option<Edit>
    decreases |events|
  {
    if events == [] then Some(Edit(hooks, false))
    else
      var n := |events| - 1;
      var before := Uninstalling(hooks, events[..n], command);
      if before.None? then None
      else
        var e := before.value;
        var groups := GroupsFor(e.hooks, events[n]);
        if groups.None? || HasMalformed(groups.value) then None
        else if !Contains(groups.value, command) then Some(e)
        else
          var kept := Stripped(groups.value, command);
          Some(Edit(if kept == [] then e.hooks - {events[n]} else e.hooks[events[n] := Array(kept)], true))
  }

  function Committed(d: Document, edit: Option<Edit>): Result {
    if edit.None? then Failed
    else if !edit.value.changed then Unchanged
    else Saved(d.(hooks := Some(Object(edit.value.hooks))))
  }

  function Installation(d: Document, command: string): Result {
    if command == "" || HooksObject(d).None? then Failed
    else Committed(d, Installing(HooksObject(d).value, EVENTS, command))
  }

  function Uninstallation(d: Document, command: string): Result {
    if command == "" || HooksObject(d).None? then Failed
    else Committed(d, Uninstalling(HooksObject(d).value, EVENTS, command))
  }

  // --- The editor ---

  method ContainsCommand(groups: seq<Group>, command: string) returns (found: bool)
    ensures found <==> Contains(groups, command)
  {
    for i := 0 to |groups|
      invariant !Contains(groups[..i], command)
    {
      if groups[i].Group? {
        for j := 0 to |groups[i].handlers|
          invariant forall h :: h in groups[i].handlers[..j] ==> HandlerCommand(h) != command
        {
          if HandlerCommand(groups[i].handlers[j]) == command {
            assert Runs(groups[i], command);
            return true;
          }
        }
      }
    }
    assert groups[..|groups|] == groups;
    return false;
  }

  lemma WithoutStep(handlers: seq<Handler>, i: nat, command: string)
    requires i < |handlers|
    ensures Without(handlers[..i + 1], command) ==
      Without(handlers[..i], command) + (if HandlerCommand(handlers[i]) == command then [] else [handlers[i]])
    ensures Handles(handlers[..i + 1], command) <==> Handles(handlers[..i], command) || HandlerCommand(handlers[i]) == command
  {
    hide HandlerCommand;
    assert handlers[..i + 1][..i] == handlers[..i];
    assert handlers[..i + 1] == handlers[..i] + [handlers[i]];
  }

  lemma NothingYet(command: string)
    ensures Without([], command) == [] && !Handles([], command)
  {
  }

  /** filtered := handlers[:0]; the kept handlers overwrite the front of the same array. */
  method FilterInPlace(handlers: array<Handler>, command: string) returns (kept: nat, removed: bool)
    modifies handlers
    ensures kept <= handlers.Length && handlers[..kept] == Without(old(handlers[..]), command)
    ensures removed <==> Handles(old(handlers[..]), command)
  {
    hide Without, Handles, HandlerCommand;
    NothingYet(command);
    ghost var was := handlers[..];
    kept, removed := 0, false;
    for i := 0 to handlers.Length
      invariant kept <= i && handlers[i..] == was[i..]
      invariant handlers[..kept] == Without(was[..i], command)
      invariant removed <==> Handles(was[..i], command)
    {
      var handler := handlers[i];
      assert handler == handlers[i..][0] == was[i];
      WithoutStep(was, i, command);
      if HandlerCommand(handler) == command {
        removed := true;
      } else {
        ghost var front := handlers[..kept];
        handlers[kept] := handler;
        assert handlers[..kept + 1] == front + [handler];
        kept := kept + 1;
      }
      assert handlers[i + 1..] == was[i + 1..];
    }
    assert was[..handlers.Length] == was;
  }

  lemma ContainsStep(groups: seq<Group>, i: nat, command: string)
    requires i < |groups|
    ensures Contains(groups[..i + 1], command) <==> Contains(groups[..i], command) || Runs(groups[i], command)
  {
    hide Runs;
    assert groups[..i + 1] == groups[..i] + [groups[i]];
  }

  lemma StrippedStep(groups: seq<Group>, i: nat, command: string)
    requires i < |groups| && !HasMalformed(groups[..i])
    ensures HasMalformed(groups[..i + 1]) <==> groups[i].Malformed?
    ensures groups[i].Malformed? ==> HasMalformed(groups)
    ensures groups[i].Group? ==>
      var kept := Without(groups[i].handlers, command);
      Stripped(groups[..i + 1], command) ==
        Stripped(groups[..i], command) + (if kept == [] then [] else [groups[i].(handlers := kept)])
  {
    hide Without;
    assert groups[..i + 1][..i] == groups[..i];
    assert groups[..i + 1] == groups[..i] + [groups[i]];
  }

  lemma NoGroups(command: string)
    ensures !HasMalformed([]) && Stripped([], command) == [] && !Contains([], command)
  {
  }

  method RemoveCommand(groups: seq<Group>, command: string) returns (result: Option<seq<Group>>, removed: bool)
    ensures result.None? <==> HasMalformed(groups)
    ensures result.Some? ==> result.value == Stripped(groups, command) && (removed <==> Contains(groups, command))
  {
    hide Without, Contains, Handles, HasMalformed, Stripped;
    var kept: seq<Group> := [];
    removed := false;
    NoGroups(command);
    for i := 0 to |groups|
      invariant !HasMalformed(groups[..i]) && kept == Stripped(groups[..i], command)
      invariant removed <==> Contains(groups[..i], command)
    {
      var group := groups[i];
      StrippedStep(groups, i, command);
      ContainsStep(groups, i, command);
      if group.Malformed? {
        return None, false;
      }
      var handlers := new Handler[|group.handlers|](k requires 0 <= k < |group.handlers| => group.handlers[k]);
      assert handlers[..] == group.handlers;
      var n, some := FilterInPlace(handlers, command);
      if n > 0 {
        kept := kept + [group.(handlers := handlers[..n])];
      }
      removed := removed || some;
    }
    assert groups[..|groups|] == groups;
    return Some(kept), removed;
  }

  method Install(d: Document, command: string) returns (result: Result)
    ensures result == Installation(d, command)
  {
    if command == "" {
      return Failed;
    }
    var found := HooksObject(d);
    if found.None? {
      return Failed;
    }
    var hooks, changed := found.value, false;
    for i := 0 to |EVENTS|
      invariant Installing(found.value, EVENTS[..i], command) == Some(Edit(hooks, changed))
    {
      assert EVENTS[..i + 1][..i] == EVENTS[..i];
      var groups := GroupsFor(hooks, EVENTS[i]);
      if groups.None? {
        InstallingFails(found.value, i + 1, command);
        return Failed;
      }
      var contained := ContainsCommand(groups.value, command);
      if !contained {
        hooks := hooks[EVENTS[i] := Array(groups.value + [NewGroup(command)])];
        changed := true;
      }
    }
    assert EVENTS[..|EVENTS|] == EVENTS;
    if !changed {
      return Unchanged;
    }
    return Saved(d.(hooks := Some(Object(hooks))));
  }

  method Uninstall(d: Document, command: string) returns (result: Result)
    ensures result == Uninstallation(d, command)
  {
    if command == "" {
      return Failed;
    }
    var found := HooksObject(d);
    if found.None? {
      return Failed;
    }
    var hooks, changed := found.value, false;
    for i := 0 to |EVENTS|
      invariant Uninstalling(found.value, EVENTS[..i], command) == Some(Edit(hooks, changed))
    {
      assert EVENTS[..i + 1][..i] == EVENTS[..i];
      var groups := GroupsFor(hooks, EVENTS[i]);
      if groups.None? {
        UninstallingFails(found.value, i + 1, command);
        return Failed;
      }
      var filtered, removed := RemoveCommand(groups.value, command);
      if filtered.None? {
        UninstallingFails(found.value, i + 1, command);
        return Failed;
      }
      if removed {
        changed := true;
        hooks := if filtered.value == [] then hooks - {EVENTS[i]} else hooks[EVENTS[i] := Array(filtered.value)];
      }
    }
    assert EVENTS[..|EVENTS|] == EVENTS;
    if !changed {
      return Unchanged;
    }
    return Saved(d.(hooks := Some(Object(hooks))));
  }

  method Installed(d: Document, command: string) returns (installed: bool)
    ensures installed <==> IsInstalled(d, command)
  {
    var found := HooksObject(d);
    if found.None? {
      return false;
    }
    for i := 0 to |EVENTS|
      invariant forall e :: e in EVENTS[..i] ==> Has(found.value, e, command)
    {
      assert EVENTS[i] in EVENTS;
      var groups := GroupsFor(found.value, EVENTS[i]);
      if groups.None? {
        return false;
      }
      var contained := ContainsCommand(groups.value, command);
      if !contained {
        return false;
      }
    }
    return true;
  }

  predicate Has(hooks: Entries, event: string, command: string) {
    GroupsFor(hooks, event).Some? && Contains(GroupsFor(hooks, event).value, command)
  }

  predicate IsInstalled(d: Document, command: string) {
    HooksObject(d).Some? && forall e :: e in EVENTS ==> Has(HooksObject(d).value, e, command)
  }

  lemma {:induction false} InstallingFails(hooks: Entries, i: nat, command: string)
    requires i <= |EVENTS| && Installing(hooks, EVENTS[..i], command).None?
    ensures Installing(hooks, EVENTS, command).None?
    decreases |EVENTS| - i
  {
    if i < |EVENTS| {
      assert EVENTS[..i + 1][..i] == EVENTS[..i];
      InstallingFails(hooks, i + 1, command);
    } else {
      assert EVENTS[..i] == EVENTS;
    }
  }

  lemma {:induction false} UninstallingFails(hooks: Entries, i: nat, command: string)
    requires i <= |EVENTS| && Uninstalling(hooks, EVENTS[..i], command).None?
    ensures Uninstalling(hooks, EVENTS, command).None?
    decreases |EVENTS| - i
  {
    if i < |EVENTS| {
      assert EVENTS[..i + 1][..i] == EVENTS[..i];
      UninstallingFails(hooks, i + 1, command);
    } else {
      assert EVENTS[..i] == EVENTS;
    }
  }

  // --- What an edit does to each event ---

  ghost predicate Distinct(events: seq<string>) {
    forall i, j :: 0 <= i < j < |events| ==> events[i] != events[j]
  }

  ghost predicate SameAt(a: Entries, b: Entries, event: string) {
    (event in a <==> event in b) && (event in a ==> a[event] == b[event])
  }

  ghost predicate InstalledAt(before: Entries, after: Entries, event: string, command: string) {
    var groups := GroupsFor(before, event);
    if groups.None? || Contains(groups.value, command) then SameAt(before, after, event)
    else event in after && after[event] == Array(groups.value + [NewGroup(command)])
  }

  ghost predicate UninstalledAt(before: Entries, after: Entries, event: string, command: string) {
    var groups := GroupsFor(before, event);
    if groups.None? || HasMalformed(groups.value) || !Contains(groups.value, command) then SameAt(before, after, event)
    else
      var kept := Stripped(groups.value, command);
      (event in after <==> kept != []) && (kept != [] ==> after[event] == Array(kept))
  }

  /** Each of the events is as after an installation, and nothing else changed. */
  ghost predicate EachInstalled(before: Entries, after: Entries, events: seq<string>, command: string) {
    forall e :: if e in events then InstalledAt(before, after, e, command) else SameAt(before, after, e)
  }

  lemma OneMoreInstalled(hooks: Entries, before: Entries, events: seq<string>, last: string, command: string)
    requires EachInstalled(hooks, before, events, command) && last !in events
    ensures SameAt(hooks, before, last) && GroupsFor(before, last) == GroupsFor(hooks, last)
    ensures var groups := GroupsFor(hooks, last);
      groups.Some? ==>
        EachInstalled(hooks,
          if Contains(groups.value, command) then before
          else before[last := Array(groups.value + [NewGroup(command)])],
          events + [last], command)
  {
    hide Contains, NewGroup;
    assert SameAt(hooks, before, last);
    assert forall e :: e in events + [last] <==> e in events || e == last;
  }

  lemma {:induction false} InstallingEach(hooks: Entries, events: seq<string>, command: string)
    requires Distinct(events)
    ensures Installing(hooks, events, command).None? <==> exists e :: e in events && GroupsFor(hooks, e).None?
    ensures var edit := Installing(hooks, events, command);
      edit.Some? ==>
        && (edit.value.changed <==> exists e :: e in events && !Has(hooks, e, command))
        && EachInstalled(hooks, edit.value.hooks, events, command)
    decreases |events|
  {
    hide Contains, HandlerCommand, NewGroup, EachInstalled;
    if events == [] {
      NoneInstalled(hooks, command);
    } else {
      var n := |events| - 1;
      var last := events[n];
      InstallingEach(hooks, events[..n], command);
      assert events == events[..n] + [last] && last !in events[..n];
      assert forall e :: e in events <==> e in events[..n] || e == last;
      var before := Installing(hooks, events[..n], command);
      if before.Some? {
        OneMoreInstalled(hooks, before.value.hooks, events[..n], last, command);
      }
    }
  }

  lemma NoneInstalled(hooks: Entries, command: string)
    ensures EachInstalled(hooks, hooks, [], command)
  {
  }

  lemma {:induction false} UninstallingEach(hooks: Entries, events: seq<string>, command: string)
    requires Distinct(events)
    ensures Uninstalling(hooks, events, command).None? <==>
      exists e :: e in events && (GroupsFor(hooks, e).None? || HasMalformed(GroupsFor(hooks, e).value))
    ensures var edit := Uninstalling(hooks, events, command);
      edit.Some? ==>
        && (edit.value.changed <==> exists e :: e in events && Has(hooks, e, command))
        && forall e ::
          if e in events then UninstalledAt(hooks, edit.value.hooks, e, command) else SameAt(hooks, edit.value.hooks, e)
    decreases |events|
  {
    hide Contains, HasMalformed, Stripped;
    if events != [] {
      var n := |events| - 1;
      var last := events[n];
      UninstallingEach(hooks, events[..n], command);
      assert events == events[..n] + [last] && last !in events[..n];
      assert forall e :: e in events <==> e in events[..n] || e == last;
      var before := Uninstalling(hooks, events[..n], command);
      if before.Some? {
        assert SameAt(hooks, before.value.hooks, last);
        var groups := GroupsFor(hooks, last);
        if groups.Some? && !HasMalformed(groups.value) && Contains(groups.value, command) {
          var kept := Stripped(groups.value, command);
          var now := before.value.hooks;
          ChangedElsewhere(hooks, now, if kept == [] then now - {last} else now[last := Array(kept)], events[..n], last, command);
        }
      }
    }
  }

  lemma ChangedElsewhere(hooks: Entries, before: Entries, after: Entries, events: seq<string>, last: string, command: string)
    requires last !in events && forall e :: e != last ==> SameAt(before, after, e)
    requires forall e :: if e in events then UninstalledAt(hooks, before, e, command) else SameAt(hooks, before, e)
    ensures forall e :: e != last ==> if e in events then UninstalledAt(hooks, after, e, command) else SameAt(hooks, after, e)
  {
    hide Contains, HasMalformed, Stripped;
    forall e | e != last
      ensures if e in events then UninstalledAt(hooks, after, e, command) else SameAt(hooks, after, e)
    {
      assert SameAt(before, after, e);
    }
  }

  // --- What the edits promise ---

  /** The editor's view of a document: the entries of its hooks. */
  ghost predicate Edited(d: Document, result: Result, now: Entries) {
    HooksObject(d).Some? && match result
      case Failed => false
      case Unchanged => HooksObject(d).value == now
      case Saved(document) => document == d.(hooks := Some(Object(now)))
  }

  lemma InstallationEach(d: Document, command: string) returns (now: Entries)
    requires !Installation(d, command).Failed?
    ensures Edited(d, Installation(d, command), now) && command != ""
    ensures var hooks := HooksObject(d).value;
      forall e ::
        if e in EVENTS then InstalledAt(hooks, now, e, command) && GroupsFor(hooks, e).Some? else SameAt(hooks, now, e)
    ensures Installation(d, command).Unchanged? <==> forall e :: e in EVENTS ==> Has(HooksObject(d).value, e, command)
  {
    var hooks := HooksObject(d).value;
    InstallingEach(hooks, EVENTS, command);
    now := Installing(hooks, EVENTS, command).value.hooks;
    if Installation(d, command).Unchanged? {
      assert forall e :: SameAt(hooks, now, e);
      assert hooks == now;
    }
  }

  lemma UninstallationEach(d: Document, command: string) returns (now: Entries)
    requires !Uninstallation(d, command).Failed?
    ensures Edited(d, Uninstallation(d, command), now) && command != ""
    ensures var hooks := HooksObject(d).value;
      forall e ::
        if e in EVENTS then Whole(hooks, e) && UninstalledAt(hooks, now, e, command) else SameAt(hooks, now, e)
    ensures Uninstallation(d, command).Unchanged? <==> forall e :: e in EVENTS ==> !Has(HooksObject(d).value, e, command)
  {
    var hooks := HooksObject(d).value;
    UninstallingEach(hooks, EVENTS, command);
    now := Uninstalling(hooks, EVENTS, command).value.hooks;
    if Uninstallation(d, command).Unchanged? {
      assert forall e :: SameAt(hooks, now, e);
      assert hooks == now;
    }
  }

  /** The entry is absent or an array of well-formed groups. */
  predicate Whole(hooks: Entries, event: string) {
    GroupsFor(hooks, event).Some? && !HasMalformed(GroupsFor(hooks, event).value)
  }

  /** The document on disk afterwards. */
  function Left(d: Document, result: Result): Document { if result.Saved? then result.document else d }

  lemma InstallFailsExactly(d: Document, command: string)
    ensures Installation(d, command).Failed? <==>
      || command == "" || HooksObject(d).None?
      || exists e :: e in EVENTS && GroupsFor(HooksObject(d).value, e).None?
  {
    if HooksObject(d).Some? {
      InstallingEach(HooksObject(d).value, EVENTS, command);
    }
  }

  lemma UninstallFailsExactly(d: Document, command: string)
    ensures Uninstallation(d, command).Failed? <==>
      command == "" || HooksObject(d).None? || exists e :: e in EVENTS && !Whole(HooksObject(d).value, e)
  {
    if HooksObject(d).Some? {
      UninstallingEach(HooksObject(d).value, EVENTS, command);
      assert forall e :: Whole(HooksObject(d).value, e) <==>
        !(GroupsFor(HooksObject(d).value, e).None? || HasMalformed(GroupsFor(HooksObject(d).value, e).value));
    }
  }

  /** Installing leaves the command installed, a second time changes nothing, and no other command
      comes or goes. */
  lemma InstallInstalls(d: Document, command: string, other: string)
    requires !Installation(d, command).Failed?
    ensures var u := Left(d, Installation(d, command));
      && IsInstalled(u, command) && Installation(u, command) == Unchanged
      && HooksObject(u).Some?
      && Has(HooksObject(u).value, "PermissionRequest", command) && Has(HooksObject(u).value, "Stop", command)
      && u.other == d.other
    ensures other != command ==> (IsInstalled(Left(d, Installation(d, command)), other) <==> IsInstalled(d, other))
  {
    hide Installing, Contains;
    var u := Left(d, Installation(d, command));
    var now := InstallationEach(d, command);
    assert HooksObject(u).value == now;
    forall e | e in EVENTS
      ensures Has(now, e, command) && (other != command ==> (Has(now, e, other) <==> Has(HooksObject(d).value, e, other)))
    {
      AppendedContains(GroupsFor(HooksObject(d).value, e).value, command, command);
      AppendedContains(GroupsFor(HooksObject(d).value, e).value, command, other);
    }
    InstallingEach(now, EVENTS, command);
  }

  lemma AppendedContains(groups: seq<Group>, command: string, other: string)
    requires command != ""
    ensures Contains(groups + [NewGroup(command)], other) <==> Contains(groups, other) || other == command
  {
    var handler := Handler("command", command, 0);
    assert NewGroup(command).handlers == [handler] && HandlerCommand(handler) == command;
    assert handler in NewGroup(command).handlers;
    assert NewGroup(command) in groups + [NewGroup(command)];
  }

  /** All handlers of an event, in order. */
  function Flat(groups: seq<Group>): seq<Handler> {
    if groups == [] then []
    else var n := |groups| - 1; Flat(groups[..n]) + (if groups[n].Group? then groups[n].handlers else [])
  }

  function HandlersOf(d: Document, event: string): seq<Handler> {
    if HooksObject(d).None? || GroupsFor(HooksObject(d).value, event).None? then []
    else Flat(GroupsFor(HooksObject(d).value, event).value)
  }

  lemma {:induction false} WithoutJoins(a: seq<Handler>, b: seq<Handler>, command: string)
    ensures Without(a + b, command) == Without(a, command) + Without(b, command)
  {
    if b == [] {
      assert a + b == a;
    } else {
      var n := |b| - 1;
      WithoutJoins(a, b[..n], command);
      assert (a + b)[..|a + b| - 1] == a + b[..n];
      var last := if HandlerCommand(b[n]) == command then [] else [b[n]];
      calc {
        Without(a + b, command);
        (Without(a, command) + Without(b[..n], command)) + last;
        {
          hide Without;
          assert (Without(a, command) + Without(b[..n], command)) + last ==
            Without(a, command) + (Without(b[..n], command) + last);
        }
        Without(a, command) + Without(b, command);
      }
    }
  }

  lemma {:induction false} WithoutKeeps(handlers: seq<Handler>, command: string, h: Handler)
    ensures h in Without(handlers, command) <==> h in handlers && HandlerCommand(h) != command
    ensures (forall k :: k in handlers ==> HandlerCommand(k) != command) ==> Without(handlers, command) == handlers
  {
    hide Without, HandlerCommand, Handles;
    if handlers == [] {
      NothingYet(command);
    } else {
      var n := |handlers| - 1;
      var front, last := handlers[..n], handlers[n];
      assert handlers == front + [last] && handlers[..n + 1] == handlers;
      WithoutKeeps(front, command, h);
      WithoutStep(handlers, n, command);
    }
  }

  lemma {:induction false} StrippedIsFlatWithout(groups: seq<Group>, command: string)
    requires !HasMalformed(groups)
    ensures Flat(Stripped(groups, command)) == Without(Flat(groups), command)
  {
    if groups != [] {
      var n := |groups| - 1;
      StrippedIsFlatWithout(groups[..n], command);
      WithoutJoins(Flat(groups[..n]), groups[n].handlers, command);
      var front, kept := Stripped(groups[..n], command), Without(groups[n].handlers, command);
      if kept == [] {
        assert Stripped(groups, command) == front;
      } else {
        assert (front + [groups[n].(handlers := kept)])[..|front|] == front;
      }
    }
  }

  lemma {:induction false} ContainsIsFlat(groups: seq<Group>, command: string)
    ensures Contains(groups, command) <==> exists h :: h in Flat(groups) && HandlerCommand(h) == command
  {
    if groups != [] {
      var n := |groups| - 1;
      ContainsIsFlat(groups[..n], command);
      ContainsStep(groups, n, command);
      assert groups[..n + 1] == groups;
    }
  }

  /** Uninstalling removes exactly the handlers of the command, keeps all others in order, and leaves
      other events and the rest of the document alone. */
  lemma UninstallRemoves(d: Document, command: string, event: string)
    requires !Uninstallation(d, command).Failed?
    ensures var u := Left(d, Uninstallation(d, command));
      && u.other == d.other && HooksObject(u).Some?
      && (event in EVENTS ==> HandlersOf(u, event) == Without(HandlersOf(d, event), command))
      && (event !in EVENTS ==> SameAt(HooksObject(d).value, HooksObject(u).value, event))
  {
    hide Uninstalling;
    var now := UninstallationEach(d, command);
    if event in EVENTS {
      var groups := GroupsFor(HooksObject(d).value, event).value;
      if Contains(groups, command) {
        StrippedIsFlatWithout(groups, command);
      } else {
        ContainsIsFlat(groups, command);
        WithoutKeeps(Flat(groups), command, Handler("", "", 0));
      }
    }
  }

  /** A handler goes exactly if it is of kind command and runs the command. */
  lemma UninstallRemovesHandler(d: Document, command: string, event: string, h: Handler)
    requires !Uninstallation(d, command).Failed? && (event == "PermissionRequest" || event == "Stop")
    ensures h in HandlersOf(Left(d, Uninstallation(d, command)), event) <==>
      h in HandlersOf(d, event) && !(h.kind == "command" && h.command == command)
  {
    hide HandlersOf, Without, Uninstallation;
    UninstallNeedsCommand(d, command);
    assert event in EVENTS;
    UninstallRemoves(d, command, event);
    WithoutKeeps(HandlersOf(d, event), command, h);
  }

  lemma UninstallNeedsCommand(d: Document, command: string)
    requires !Uninstallation(d, command).Failed?
    ensures command != ""
  {
  }

  lemma HasIsFlat(d: Document, event: string, command: string)
    requires HooksObject(d).Some?
    ensures Has(HooksObject(d).value, event, command) <==> exists h :: h in HandlersOf(d, event) && HandlerCommand(h) == command
  {
    hide Contains;
    if GroupsFor(HooksObject(d).value, event).Some? {
      ContainsIsFlat(GroupsFor(HooksObject(d).value, event).value, command);
    }
  }

  /** Every other command stays installed or not as it was, and the command itself is gone from both
      events. */
  lemma UninstallKeepsOthers(d: Document, command: string, event: string, other: string)
    requires !Uninstallation(d, command).Failed? && event in EVENTS
    ensures var u := Left(d, Uninstallation(d, command));
      HooksObject(d).Some? && HooksObject(u).Some? &&
      (Has(HooksObject(u).value, event, other) <==> other != command && Has(HooksObject(d).value, event, other))
  {
    hide Uninstallation, Uninstalling, Contains, Has, Flat, Without;
    var u := Left(d, Uninstallation(d, command));
    var now := UninstallationEach(d, command);
    UninstallRemoves(d, command, event);
    HasIsFlat(d, event, other);
    HasIsFlat(u, event, other);
    forall h ensures h in HandlersOf(u, event) <==> h in HandlersOf(d, event) && HandlerCommand(h) != command {
      WithoutKeeps(HandlersOf(d, event), command, h);
    }
  }

  lemma UninstalledIsWhole(hooks: Entries, now: Entries, event: string, command: string)
    requires Whole(hooks, event) && UninstalledAt(hooks, now, event, command)
    ensures Whole(now, event)
  {
    StrippedIsWhole(GroupsFor(hooks, event).value, command);
  }

  lemma {:induction false} StrippedIsWhole(groups: seq<Group>, command: string)
    requires !HasMalformed(groups)
    ensures !HasMalformed(Stripped(groups, command))
  {
    hide Without;
    if groups != [] {
      StrippedIsWhole(groups[..|groups| - 1], command);
    }
  }

  /** A second uninstall changes nothing. */
  lemma UninstallTwice(d: Document, command: string)
    requires !Uninstallation(d, command).Failed?
    ensures Uninstallation(Left(d, Uninstallation(d, command)), command) == Unchanged
  {
    hide Uninstalling, Contains, Whole, UninstalledAt;
    var u := Left(d, Uninstallation(d, command));
    var now := UninstallationEach(d, command);
    assert HooksObject(u).value == now;
    forall e | e in EVENTS
      ensures Whole(now, e) && !Has(now, e, command)
    {
      UninstalledIsWhole(HooksObject(d).value, now, e, command);
      UninstallKeepsOthers(d, command, e, command);
    }
    UninstallFailsExactly(u, command);
    if Uninstallation(u, command) != Unchanged {
      assert Uninstallation(u, command).Saved?;
      var again := UninstallationEach(u, command);
    }
  }

  // --- Installing, then uninstalling ---

  /** Without the command, malformed or empty groups, and without an empty array. */
  predicate Clean(hooks: Entries, event: string, command: string) {
    && Whole(hooks, event) && !Has(hooks, event, command)
    && (forall g :: g in GroupsFor(hooks, event).value ==> g.Group? && g.handlers != [])
    && (event in hooks ==> GroupsFor(hooks, event).value != [])
  }

  lemma {:induction false} StrippedFixed(groups: seq<Group>, command: string)
    requires !HasMalformed(groups) && !Contains(groups, command)
    ensures |Stripped(groups, command)| <= |groups|
    ensures Stripped(groups, command) == groups <==> forall g :: g in groups ==> g.Group? && g.handlers != []
  {
    if groups != [] {
      var n := |groups| - 1;
      assert groups == groups[..n] + [groups[n]];
      StrippedFixed(groups[..n], command);
      assert !Runs(groups[n], command);
      WithoutKeeps(groups[n].handlers, command, Handler("", "", 0));
    }
  }

  lemma StrippedAfterInstall(groups: seq<Group>, command: string)
    requires !HasMalformed(groups) && command != ""
    ensures !HasMalformed(groups + [NewGroup(command)])
    ensures Stripped(groups + [NewGroup(command)], command) == Stripped(groups, command)
  {
    var all := groups + [NewGroup(command)];
    var handler := Handler("command", command, 0);
    assert all[..|groups|] == groups && all[|groups|].handlers == [handler] && HandlerCommand(handler) == command;
    assert [handler][..0] == [];
    assert Without([handler], command) == [];
  }

  /** At one event, the two edits cancel exactly when it was clean. */
  lemma RoundTripAt(hooks: Entries, mid: Entries, now: Entries, event: string, command: string)
    requires command != "" && GroupsFor(hooks, event).Some?
    requires InstalledAt(hooks, mid, event, command) && Whole(mid, event) && UninstalledAt(mid, now, event, command)
    ensures SameAt(hooks, now, event) <==> Clean(hooks, event, command)
  {
    hide Contains, Stripped, Flat, HasMalformed;
    var groups := GroupsFor(hooks, event).value;
    AppendedContains(groups, command, command);
    if Contains(groups, command) {
      var kept := Stripped(groups, command);
      StrippedIsFlatWithout(groups, command);
      if SameAt(hooks, now, event) {
        StillContains(groups, command);
      }
    } else {
      WholePrefix(groups, command);
      StrippedAfterInstall(groups, command);
      StrippedFixed(groups, command);
    }
  }

  lemma WholePrefix(groups: seq<Group>, command: string)
    requires !HasMalformed(groups + [NewGroup(command)])
    ensures !HasMalformed(groups)
  {
    forall g | g in groups ensures !g.Malformed? {
      assert g in groups + [NewGroup(command)];
    }
  }

  lemma StillContains(groups: seq<Group>, command: string)
    requires !HasMalformed(groups) && Contains(groups, command)
    ensures Stripped(groups, command) != groups && groups != []
  {
    hide Stripped, Contains, HasMalformed;
    StrippedIsFlatWithout(groups, command);
    ContainsIsFlat(groups, command);
    var h :| h in Flat(groups) && HandlerCommand(h) == command;
    WithoutKeeps(Flat(groups), command, h);
    assert groups != [] by { EmptyFlat(); }
  }

  lemma EmptyFlat()
    ensures Flat([]) == []
  {
  }

  /** Installing and then uninstalling restores the entries of a document exactly when both events were
      clean: free of the command, of malformed and empty groups and of empty arrays. */
  lemma InstallThenUninstall(d: Document, command: string)
    requires !Installation(d, command).Failed?
    ensures var u := Left(d, Installation(d, command)); var r := Uninstallation(u, command);
      && HooksObject(d).Some?
      && ((!r.Failed? && HooksObject(Left(u, r)) == HooksObject(d)) <==>
          (forall e :: e in EVENTS ==> Clean(HooksObject(d).value, e, command)))
  {
    hide Installation, Uninstallation, Clean, Whole, InstalledAt, UninstalledAt;
    var u := Left(d, Installation(d, command));
    var mid := InstallationEach(d, command);
    var hooks := HooksObject(d).value;
    UninstallFailsExactly(u, command);
    if Uninstallation(u, command).Failed? {
      var e :| e in EVENTS && !Whole(mid, e);
      InstallingKeepsWhole(hooks, mid, e, command);
    } else {
      var now := UninstallationEach(u, command);
      forall e | e in EVENTS ensures SameAt(hooks, now, e) <==> Clean(hooks, e, command) {
        RoundTripAt(hooks, mid, now, e, command);
      }
      forall e | e !in EVENTS ensures SameAt(hooks, now, e) {
        assert SameAt(hooks, mid, e) && SameAt(mid, now, e);
      }
      if forall e :: e in EVENTS ==> Clean(hooks, e, command) {
        SameEverywhere(hooks, now);
      }
    }
  }

  lemma SameEverywhere(a: Entries, b: Entries)
    requires forall e :: SameAt(a, b, e)
    ensures a == b
  {
    forall e ensures e in a <==> e in b {
      assert SameAt(a, b, e);
    }
    forall e | e in a ensures a[e] == b[e] {
      assert SameAt(a, b, e);
    }
  }

  lemma InstallingKeepsWhole(hooks: Entries, mid: Entries, event: string, command: string)
    requires InstalledAt(hooks, mid, event, command) && !Whole(mid, event)
    ensures !Clean(hooks, event, command)
  {
    hide Contains;
    if Whole(hooks, event) {
      var groups := GroupsFor(hooks, event).value;
      assert !HasMalformed(groups + [NewGroup(command)]) by {
        forall g | g in groups + [NewGroup(command)] ensures !g.Malformed? {
          assert g in groups || g == NewGroup(command);
        }
      }
    }
  }
}
