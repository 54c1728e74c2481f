/** Host events, their validity, and the event the reconciler builds from one agent of a snapshot. */
module HostEvents {
  import opened Options
  import opened Text
  import opened HerdrMetadata

  const SCHEMA_VERSION := 1
  const HERDR_VERSION := 2
  const ZERO_TIME := -62135596800 // the zero time.Time in Unix seconds

  datatype EventType = ApprovalRequired | TurnStopped | AttentionRequired | ProgressUpdated | TestNotification | OtherType
  datatype SourceField = Unset | CodexSource | HerdrSource | OtherSource
  datatype Target = Target(sessionId: string, paneId: string, codexThreadId: string, testInstallationId: string)
  datatype HostEvent = HostEvent(
    schemaVersion: int, eventType: EventType, threadId: string, turnId: string, requestId: string,
    occurredAt: int, source: SourceField, target: Option<Target>, metadata: Option<Metadata>)

  predicate ValidID(value: string) {
    value != "" && Bytes(value) <= 256 && '\r' !in value && '\n' !in value && '\0' !in value
  }

  function EventSource(e: HostEvent): SourceField {
    if e.source == Unset && e.schemaVersion == SCHEMA_VERSION then CodexSource else e.source
  }

  /** The comparison of the two JSON texts is equality of the two values: encoding/json writes the
      fields in a fixed order and map keys sorted, and all strings are valid UTF-8. */
  predicate ValidFor(m: Metadata, event: EventType) {
    && (event == AttentionRequired ==> m.agentStatus == "blocked")
    && (event == ProgressUpdated ==> m.agentStatus == "idle" || m.agentStatus == "done")
    && (event == AttentionRequired || event == ProgressUpdated)
    && (m.workspaceId == "" || ValidID(m.workspaceId))
    && Normalized(m) == m
  }

  predicate Valid(e: HostEvent) {
    && e.occurredAt != ZERO_TIME
    && (e.metadata.Some? ==> EventSource(e) == HerdrSource && ValidFor(e.metadata.value, e.eventType))
    && if e.schemaVersion == SCHEMA_VERSION then
         && (e.source == Unset || e.source == CodexSource) && e.target.None?
         && (e.eventType == ApprovalRequired || e.eventType == TurnStopped)
         && ValidID(e.threadId) && ValidID(e.turnId) && (e.requestId == "" || ValidID(e.requestId))
       else
         && e.schemaVersion == HERDR_VERSION && e.source == HerdrSource
         && e.threadId == "" && e.turnId == "" && e.requestId == ""
         && e.target.Some? && ValidID(e.target.value.sessionId)
         && if e.eventType == TestNotification then
              && e.target.value.paneId == "" && e.target.value.codexThreadId == ""
              && ValidID(e.target.value.testInstallationId)
            else
              && ValidID(e.target.value.paneId) && e.target.value.testInstallationId == ""
              && (e.target.value.codexThreadId == "" || ValidID(e.target.value.codexThreadId))
              && (e.eventType == AttentionRequired || e.eventType == ProgressUpdated)
  }

  /** A receiver accepts metadata exactly in normal form with a status that fits the event. */
  lemma ValidForIsNormalForm(m: Metadata, event: EventType)
    ensures ValidFor(m, event) <==>
      && NormalForm(m)
      && ((event == AttentionRequired && m.agentStatus == "blocked")
          || (event == ProgressUpdated && m.agentStatus in {"idle", "done"}))
  {
    NormalizedFixed(m);
    if NormalForm(m) && m.workspaceId != "" {
      PrintableIsID(m.workspaceId);
    }
  }

  lemma PrintableIsID(s: string)
    requires s != "" && Printable(s) && Bytes(s) <= 256
    ensures ValidID(s)
  {
    assert Dropped('\r') && Dropped('\n') && Dropped('\0');
  }

  // --- Agents of a snapshot ---

  datatype AgentSession = AgentSession(agent: string, kind: string, value: string)
  datatype HerdrAgent = HerdrAgent(
    terminalId: string, paneId: string, agent: string, status: Status, sequence: nat,
    completionSequence: Option<nat>, completionSupported: bool,
    workspaceId: string, title: string, displayAgent: string, stateLabels: map<string, string>,
    session: Option<AgentSession>)

  /** What ReadHerdrAgents has checked of every agent it returns. */
  predicate CheckedAgent(a: HerdrAgent) { ValidID(a.paneId) && ValidID(a.terminalId) }

  predicate IsUuid(value: string) {
    |value| == 36 && forall i :: 0 <= i < 36 ==>
      if i in {8, 13, 18, 23} then value[i] == '-'
      else '0' <= value[i] <= '9' || 'a' <= value[i] <= 'f' || 'A' <= value[i] <= 'F'
  }

  function CodexThreadID(a: HerdrAgent): string {
    if a.agent == "codex" && a.session.Some? && a.session.value.agent == "codex"
       && a.session.value.kind == "id" && IsUuid(a.session.value.value) then a.session.value.value
    else ""
  }

  function AgentMetadata(a: HerdrAgent): Metadata {
    Normalized(Metadata("", a.workspaceId, StatusText(a.status), a.agent, a.title, a.displayAgent, a.stateLabels))
  }

  /** Normalised once with the agent's own fields and again with the session name,
      the display name derived from the binding's socket path. */
  function PaneMetadata(a: HerdrAgent, name: string): Metadata {
    Normalized(AgentMetadata(a).(sessionName := name))
  }

  /** The event for one agent. */
  function PaneEvent(a: HerdrAgent, kind: EventType, sessionId: string, name: string, now: int): HostEvent {
    HostEvent(HERDR_VERSION, kind, "", "", "", now, HerdrSource,
              Some(Target(sessionId, a.paneId, CodexThreadID(a), "")), Some(PaneMetadata(a, name)))
  }

  /** The kind of event fits the status of the agent. */
  predicate KindFits(kind: EventType, status: Status) {
    (kind == AttentionRequired && status == Blocked) || (kind == ProgressUpdated && (status == Idle || status == Done))
  }

  lemma UuidIsID(s: string)
    requires IsUuid(s)
    ensures ValidID(s)
  {
    AsciiBytes(s);
  }

  lemma PaneMetadataIsValid(a: HerdrAgent, kind: EventType, name: string)
    requires KindFits(kind, a.status)
    ensures ValidFor(PaneMetadata(a, name), kind)
  {
    var raw := Metadata("", a.workspaceId, StatusText(a.status), a.agent, a.title, a.displayAgent, a.stateLabels);
    SecondPassIsNormal(raw, name);
    StatusSurvives(raw, a.status, name);
    ValidForIsNormalForm(PaneMetadata(a, name), kind);
  }

  lemma TargetIsValid(a: HerdrAgent, kind: EventType, sessionId: string, m: Metadata, now: int)
    requires CheckedAgent(a) && KindFits(kind, a.status) && ValidID(sessionId) && now != ZERO_TIME && ValidFor(m, kind)
    ensures Valid(HostEvent(HERDR_VERSION, kind, "", "", "", now, HerdrSource,
                            Some(Target(sessionId, a.paneId, CodexThreadID(a), "")), Some(m)))
  {
    if CodexThreadID(a) != "" {
      UuidIsID(CodexThreadID(a));
    }
  }

  /** Every event built from a checked agent is valid, whatever the agent calls itself. */
  lemma PaneEventIsValid(a: HerdrAgent, kind: EventType, sessionId: string, name: string, now: int)
    requires CheckedAgent(a) && KindFits(kind, a.status) && ValidID(sessionId) && now != ZERO_TIME
    ensures Valid(PaneEvent(a, kind, sessionId, name, now))
  {
    PaneMetadataIsValid(a, kind, name);
    TargetIsValid(a, kind, sessionId, PaneMetadata(a, name), now);
  }

  // --- What events carry ---

  lemma NamelessIsNormal(m: Metadata)
    requires NormalForm(m)
    ensures NormalForm(m.(sessionName := ""))
  {
  }

  /** When all it is given is in normal form, the event carries every field in its own place. */
  lemma PaneEventCarries(a: HerdrAgent, kind: EventType, sessionId: string, name: string, now: int)
    requires NormalForm(Metadata(name, a.workspaceId, StatusText(a.status), a.agent, a.title, a.displayAgent, a.stateLabels))
    ensures var e := PaneEvent(a, kind, sessionId, name, now);
      && e.schemaVersion == 2 && e.source == HerdrSource && e.eventType == kind && e.occurredAt == now
      && e.threadId == e.turnId == e.requestId == ""
      && e.target == Some(Target(sessionId, a.paneId, CodexThreadID(a), ""))
      && e.metadata.Some?
      && var m := e.metadata.value;
         && m.sessionName == name && m.workspaceId == a.workspaceId && m.agentStatus == StatusText(a.status)
         && m.agent == a.agent && m.title == a.title && m.displayAgent == a.displayAgent && m.stateLabels == a.stateLabels
  {
    var m := Metadata(name, a.workspaceId, StatusText(a.status), a.agent, a.title, a.displayAgent, a.stateLabels);
    hide NormalForm, Normalized;
    NamelessIsNormal(m);
    NormalizedFixed(m.(sessionName := ""));
    NormalizedFixed(m);
  }

  /** The thread id is given exactly by a Codex agent that reports a session id in the form of a UUID. */
  lemma CodexThreadFacts(a: HerdrAgent)
    ensures CodexThreadID(a) != "" <==>
      && a.agent == "codex" && a.session.Some? && a.session.value.agent == "codex" && a.session.value.kind == "id"
      && var id := a.session.value.value;
         && |id| == 36 && id[8] == id[13] == id[18] == id[23] == '-'
         && forall i :: 0 <= i < 36 && i != 8 && i != 13 && i != 18 && i != 23 ==>
              '0' <= id[i] <= '9' || 'a' <= id[i] <= 'f' || 'A' <= id[i] <= 'F'
    ensures CodexThreadID(a) != "" ==> CodexThreadID(a) == a.session.value.value
  {
  }

  /** A hook event is valid exactly with one of its two kinds, a time, and ids that are not empty, not
      longer than 256 bytes and on one line. */
  lemma HookEventIsValid(kind: EventType, threadId: string, turnId: string, requestId: string, now: int)
    ensures var e := HostEvent(1, kind, threadId, turnId, requestId, now, Unset, None, None);
      && EventSource(e) == CodexSource
      && (Valid(e) <==>
           && now != -62135596800 && (kind == ApprovalRequired || kind == TurnStopped)
           && OneLine(threadId) && threadId != "" && OneLine(turnId) && turnId != "" && OneLine(requestId))
  {
  }

  predicate OneLine(s: string) { Bytes(s) <= 256 && forall i :: 0 <= i < |s| ==> s[i] != '\r' && s[i] != '\n' && s[i] != '\0' }
}
