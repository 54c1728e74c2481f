/** Presentation metadata of a Herdr event and its normal form.

    A value stands for the struct after JSON decoding: labels are a map, an
    absent label map and an empty one are the same value. */
module HerdrMetadata {
  import opened Text

  datatype Status = Working | Blocked | Idle | Done | Unknown

  function StatusText(status: Status): string {
    match status
    case Working => "working"
    case Blocked => "blocked"
    case Idle => "idle"
    case Done => "done"
    case Unknown => "unknown"
  }

  const STATUSES: seq<string> := ["working", "blocked", "idle", "done", "unknown"]
  const MAX_JSON := 1200
  const MAX_WORKSPACE_JSON := 600

  datatype Metadata = Metadata(
    sessionName: string, workspaceId: string, agentStatus: string, agent: string,
    title: string, displayAgent: string, stateLabels: map<string, string>)

  predicate PlainNameChar(c: char) {
    'a' <= c <= 'z' || 'A' <= c <= 'Z' || '0' <= c <= '9' || c == '-' || c == '_' || c == '.'
  }

  predicate ValidSessionName(name: string) {
    name != "" && Bytes(name) <= 64 && name != "." && name != ".." && forall i :: 0 <= i < |name| ==> PlainNameChar(name[i])
  }

  // --- Encoded size ---

  /** Bytes of `"name":"value",`, or nothing when the field is omitted as empty. */
  function FieldLen(nameLen: nat, value: string): nat {
    if value == "" then 0 else nameLen + 4 + QuotedLen(value)
  }

  function LabelsLen(labels: map<string, string>, keys: seq<string>): nat {
    if keys == [] then 0
    else (if keys[0] in labels then |keys[0]| + 4 + QuotedLen(labels[keys[0]]) else 0) + LabelsLen(labels, keys[1..])
  }

  /** len(json.Marshal(m)) for metadata whose labels all carry status keys. */
  function JsonLen(m: Metadata): nat {
    1 + FieldLen(11, m.sessionName) + FieldLen(11, m.workspaceId) + 15 + QuotedLen(m.agentStatus)
    + FieldLen(5, m.agent) + FieldLen(5, m.title) + FieldLen(12, m.displayAgent)
    + if m.stateLabels == map[] then 0 else 16 + LabelsLen(m.stateLabels, STATUSES)
  }

  // --- Normalisation ---

  function Label(labels: map<string, string>, key: string): string {
    Display(if key in labels then labels[key] else "", 96)
  }

  function KnownLabels(labels: map<string, string>, keys: seq<string>): map<string, string> {
    map key | key in keys && Label(labels, key) != "" :: Label(labels, key)
  }

  /** Every field cut to its own limit. */
  function Clip(m: Metadata): Metadata {
    Metadata(if ValidSessionName(m.sessionName) then m.sessionName else "",
             Display(m.workspaceId, 256), Display(m.agentStatus, 32), Display(m.agent, 64),
             Display(m.title, 256), Display(m.displayAgent, 64), KnownLabels(m.stateLabels, STATUSES))
  }

  function Half(s: string): string { Display(s, Bytes(s) / 2) }

  function HalveLabels(labels: map<string, string>): map<string, string> {
    map key | key in labels && Half(labels[key]) != "" :: Half(labels[key])
  }

  /** One round of the shrinking loop. */
  function Shrink(m: Metadata): Metadata {
    m.(workspaceId := if QuotedLen(m.workspaceId) > MAX_WORKSPACE_JSON then "" else m.workspaceId,
       agent := Half(m.agent), displayAgent := Half(m.displayAgent), title := Half(m.title),
       stateLabels := HalveLabels(m.stateLabels))
  }

  ghost predicate Bounded(m: Metadata) {
    && (m.sessionName == "" || ValidSessionName(m.sessionName))
    && Bytes(m.workspaceId) <= 256 && Bytes(m.agentStatus) <= 32 && Bytes(m.agent) <= 64
    && Bytes(m.title) <= 256 && Bytes(m.displayAgent) <= 64
    && forall key :: key in m.stateLabels ==> key in STATUSES && m.stateLabels[key] != "" && Bytes(m.stateLabels[key]) <= 96
  }

  function Max(a: nat, b: nat): nat { if a < b then b else a }

  function LongestLabel(labels: map<string, string>, keys: seq<string>): nat {
    if keys == [] then 0
    else Max(if keys[0] in labels then Bytes(labels[keys[0]]) else 0, LongestLabel(labels, keys[1..]))
  }

  /** Bytes of the longest field the loop may shorten. */
  function Longest(m: Metadata): nat {
    Max(Max(Bytes(m.agent), Bytes(m.title)), Max(Bytes(m.displayAgent), LongestLabel(m.stateLabels, STATUSES)))
  }

  function WideWorkspace(m: Metadata): nat { if QuotedLen(m.workspaceId) > MAX_WORKSPACE_JSON then 1 else 0 }

  lemma {:induction false} EscapesAreBounded(s: string)
    ensures Weigh(s, EscapedLen) <= 6 * Bytes(s)
  {
    if s != "" {
      EscapesAreBounded(s[1..]);
    }
  }

  lemma {:induction false} PlainNamesAreUnescaped(s: string)
    requires forall i :: 0 <= i < |s| ==> PlainNameChar(s[i])
    ensures Weigh(s, EscapedLen) == Bytes(s)
  {
    if s != "" {
      PlainNamesAreUnescaped(s[1..]);
    }
  }

  lemma {:induction false} NoBytesIsEmpty(s: string)
    ensures Bytes(s) == 0 <==> s == ""
  {
  }

  lemma {:induction false} LongestLabelBounds(labels: map<string, string>, keys: seq<string>)
    ensures forall key :: key in labels && key in keys ==> Bytes(labels[key]) <= LongestLabel(labels, keys)
  {
    if keys != [] {
      LongestLabelBounds(labels, keys[1..]);
    }
  }

  lemma {:induction false} LongestLabelLeast(labels: map<string, string>, keys: seq<string>, bound: nat)
    requires forall key :: key in labels ==> Bytes(labels[key]) <= bound
    ensures LongestLabel(labels, keys) <= bound
  {
    if keys != [] {
      LongestLabelLeast(labels, keys[1..], bound);
    }
  }

  /** What is left when nothing more can be shortened: 15 + 66 + 15 + 600 + 15 + 194 + 1. */
  lemma ResidualFits(m: Metadata)
    requires Bounded(m) && WideWorkspace(m) == 0 && Longest(m) == 0
    ensures JsonLen(m) <= 906
  {
    EscapesAreBounded(m.agentStatus);
    if m.sessionName != "" {
      PlainNamesAreUnescaped(m.sessionName);
    }
    NoBytesIsEmpty(m.agent);
    NoBytesIsEmpty(m.title);
    NoBytesIsEmpty(m.displayAgent);
    LongestLabelBounds(m.stateLabels, STATUSES);
    forall key | key in m.stateLabels
      ensures false
    {
      NoBytesIsEmpty(m.stateLabels[key]);
    }
  }

  lemma HalfShrinks(s: string)
    ensures Bytes(Half(s)) <= Bytes(s) / 2
    ensures Printable(Half(s))
  {
    DisplayIsPrintable(s, Bytes(s) / 2);
  }

  /** A round keeps the limits, halves the longest field and settles the workspace id. */
  lemma ShrinkProgress(m: Metadata)
    requires Bounded(m)
    ensures Bounded(Shrink(m)) && WideWorkspace(Shrink(m)) == 0
    ensures Longest(Shrink(m)) <= Longest(m) / 2
  {
    hide Half, QuotedLen, Bytes;
    HalfShrinks(m.agent);
    HalfShrinks(m.title);
    HalfShrinks(m.displayAgent);
    LabelsShrink(m.stateLabels);
    NothingIsNarrow();
  }

  lemma NothingIsNarrow()
    ensures QuotedLen("") <= MAX_WORKSPACE_JSON && Bytes("") == 0
  {
  }

  lemma LabelsShrink(labels: map<string, string>)
    requires forall key :: key in labels ==> key in STATUSES && Bytes(labels[key]) <= 96
    ensures LongestLabel(HalveLabels(labels), STATUSES) <= LongestLabel(labels, STATUSES) / 2
    ensures forall key :: key in HalveLabels(labels) ==>
      key in labels && HalveLabels(labels)[key] != "" && Bytes(HalveLabels(labels)[key]) <= 96
  {
    hide Half, Bytes, LongestLabel;
    LongestLabelBounds(labels, STATUSES);
    forall key | key in labels
      ensures Bytes(Half(labels[key])) <= LongestLabel(labels, STATUSES) / 2
      ensures Bytes(Half(labels[key])) <= 96
    {
      HalfShrinks(labels[key]);
    }
    LongestLabelLeast(HalveLabels(labels), STATUSES, LongestLabel(labels, STATUSES) / 2);
  }

  /** A document over budget always has something left to shorten. */
  lemma ShrinkDecreases(m: Metadata)
    requires Bounded(m) && JsonLen(m) > MAX_JSON
    ensures Bounded(Shrink(m)) && WideWorkspace(Shrink(m)) == 0
    ensures Longest(Shrink(m)) <= Longest(m) / 2
    ensures WideWorkspace(m) == 0 ==> 0 < Longest(m)
  {
    ShrinkProgress(m);
    if WideWorkspace(m) == 0 && Longest(m) == 0 {
      ResidualFits(m);
    }
  }

  /** The shrinking loop. */
  function Fit(m: Metadata): (r: Metadata)
    requires Bounded(m)
    ensures Bounded(r) && JsonLen(r) <= MAX_JSON
    ensures r.workspaceId == if JsonLen(m) > MAX_JSON && WideWorkspace(m) == 1 then "" else m.workspaceId
    ensures r.sessionName == m.sessionName && r.agentStatus == m.agentStatus
    decreases WideWorkspace(m), Longest(m)
  {
    if JsonLen(m) <= MAX_JSON then m
    else
      ShrinkDecreases(m);
      Fit(Shrink(m))
  }

  lemma ClipIsBounded(m: Metadata)
    ensures Bounded(Clip(m))
    ensures AllPrintable(Clip(m))
  {
    DisplayIsPrintable(m.workspaceId, 256);
    DisplayIsPrintable(m.agentStatus, 32);
    DisplayIsPrintable(m.agent, 64);
    DisplayIsPrintable(m.title, 256);
    DisplayIsPrintable(m.displayAgent, 64);
    forall key | key in STATUSES
      ensures Bytes(Label(m.stateLabels, key)) <= 96 && Printable(Label(m.stateLabels, key))
    {
      DisplayIsPrintable(if key in m.stateLabels then m.stateLabels[key] else "", 96);
    }
  }

  function Normalized(m: Metadata): Metadata {
    ClipIsBounded(m);
    Fit(Clip(m))
  }

  method Normalize(input: Metadata) returns (m: Metadata)
    ensures m == Normalized(input)
  {
    ClipIsBounded(input);
    m := ClipFields(input);
    while JsonLen(m) > MAX_JSON
      invariant Bounded(m) && Fit(m) == Normalized(input)
      decreases WideWorkspace(m), Longest(m)
    {
      ShrinkDecreases(m);
      m := ShrinkRound(m);
    }
  }

  method ClipFields(input: Metadata) returns (m: Metadata)
    ensures m == Clip(input)
  {
    m := input;
    if !ValidSessionName(m.sessionName) {
      m := m.(sessionName := "");
    }
    var workspace := DisplayText(m.workspaceId, 256);
    var status := DisplayText(m.agentStatus, 32);
    var agent := DisplayText(m.agent, 64);
    var title := DisplayText(m.title, 256);
    var display := DisplayText(m.displayAgent, 64);
    var labels := KeepKnownLabels(m.stateLabels);
    m := Metadata(m.sessionName, workspace, status, agent, title, display, labels);
  }

  method KeepKnownLabels(input: map<string, string>) returns (labels: map<string, string>)
    ensures labels == KnownLabels(input, STATUSES)
  {
    labels := map[];
    var i := 0;
    while i < |STATUSES|
      invariant 0 <= i <= |STATUSES|
      invariant labels == KnownLabels(input, STATUSES[..i])
    {
      var key := STATUSES[i];
      var value := DisplayText(if key in input then input[key] else "", 96);
      OneMoreLabel(input, STATUSES[..i], key);
      assert STATUSES[..i + 1] == STATUSES[..i] + [key];
      if value != "" {
        labels := labels[key := value];
      }
      i := i + 1;
    }
    assert STATUSES[..i] == STATUSES;
  }

  lemma OneMoreLabel(labels: map<string, string>, keys: seq<string>, key: string)
    ensures KnownLabels(labels, keys + [key])
         == if Label(labels, key) != "" then KnownLabels(labels, keys)[key := Label(labels, key)] else KnownLabels(labels, keys)
  {
  }

  method ShrinkRound(input: Metadata) returns (m: Metadata)
    ensures m == Shrink(input)
  {
    m := input;
    if QuotedLen(m.workspaceId) > MAX_WORKSPACE_JSON {
      m := m.(workspaceId := "");
    }
    var agent := DisplayText(m.agent, Bytes(m.agent) / 2);
    var display := DisplayText(m.displayAgent, Bytes(m.displayAgent) / 2);
    var title := DisplayText(m.title, Bytes(m.title) / 2);
    var labels := HalveEveryLabel(m.stateLabels);
    m := m.(agent := agent, displayAgent := display, title := title, stateLabels := labels);
  }

  /** Labels of the keys in todo as they were, all others halved or gone. */
  ghost predicate PartlyHalved(input: map<string, string>, todo: set<string>, labels: map<string, string>) {
    && todo <= labels.Keys <= input.Keys
    && forall key :: key in input ==>
      if key in todo then labels[key] == input[key]
      else (key in labels <==> Half(input[key]) != "") && (key in labels ==> labels[key] == Half(input[key]))
  }

  method HalveEveryLabel(input: map<string, string>) returns (labels: map<string, string>)
    ensures labels == HalveLabels(input)
  {
    labels := input;
    var todo := input.Keys;
    while todo != {}
      invariant PartlyHalved(input, todo, labels)
      decreases |todo|
    {
      var key :| key in todo;
      todo := todo - {key};
      var shorter := DisplayText(labels[key], Bytes(labels[key]) / 2);
      if shorter != "" {
        labels := labels[key := shorter];
      } else {
        labels := labels - {key};
      }
    }
    assert labels.Keys == HalveLabels(input).Keys;
  }

  // --- Number of rounds ---

  /** How often the loop body runs. */
  ghost function Rounds(m: Metadata): nat
    requires Bounded(m)
    decreases WideWorkspace(m), Longest(m)
  {
    if JsonLen(m) <= MAX_JSON then 0
    else
      ShrinkDecreases(m);
      1 + Rounds(Shrink(m))
  }

  /** Length of n in binary. */
  function Bits(n: nat): nat { if n == 0 then 0 else 1 + Bits(n / 2) }

  lemma {:induction false} BitsMonotone(a: nat, b: nat)
    requires a <= b
    ensures Bits(a) <= Bits(b)
    decreases b
  {
    if a > 0 {
      BitsMonotone(a / 2, b / 2);
    }
  }

  lemma {:induction false} RoundsAreLogarithmic(m: Metadata)
    requires Bounded(m) && WideWorkspace(m) == 0
    ensures Rounds(m) <= Bits(Longest(m))
    decreases Longest(m)
  {
    if JsonLen(m) > MAX_JSON {
      var next := Shrink(m);
      ShrinkDecreases(m);
      RoundsAreLogarithmic(next);
      BitsMonotone(Longest(next), Longest(m) / 2);
    }
  }

  /** The unbounded loop runs at most nine times, for every input. */
  lemma NineRoundsSuffice(m: Metadata)
    ensures Bounded(Clip(m)) && Rounds(Clip(m)) <= 9
  {
    ClipIsBounded(m);
    var c := Clip(m);
    LongestLabelLeast(c.stateLabels, STATUSES, 96);
    assert Longest(c) <= 256;
    if JsonLen(c) > MAX_JSON {
      ShrinkDecreases(c);
      RoundsAreLogarithmic(Shrink(c));
      BitsMonotone(Longest(Shrink(c)), 128);
      assert Bits(128) == 8;
    }
  }

  // --- Normal form ---

  ghost predicate AllPrintable(m: Metadata) {
    && Printable(m.workspaceId) && Printable(m.agentStatus) && Printable(m.agent)
    && Printable(m.title) && Printable(m.displayAgent)
    && forall key :: key in m.stateLabels && key in STATUSES ==> Printable(m.stateLabels[key])
  }

  ghost predicate AllCanonical(m: Metadata) {
    && Canonical(m.workspaceId) && Canonical(m.agentStatus) && Canonical(m.agent)
    && Canonical(m.title) && Canonical(m.displayAgent)
    && forall key :: key in m.stateLabels ==> Canonical(m.stateLabels[key])
  }

  /** Metadata a strict receiver accepts unchanged. */
  ghost predicate NormalForm(m: Metadata) {
    Bounded(m) && AllCanonical(m) && JsonLen(m) <= MAX_JSON
  }

  lemma {:induction false} FitKeepsText(m: Metadata)
    requires Bounded(m)
    ensures AllPrintable(m) ==> AllPrintable(Fit(m))
    ensures AllCanonical(m) ==> AllCanonical(Fit(m))
    decreases WideWorkspace(m), Longest(m)
  {
    if JsonLen(m) > MAX_JSON {
      ShrinkDecreases(m);
      ShrinkKeepsText(m);
      FitKeepsText(Shrink(m));
    }
  }

  lemma HalfKeepsCanonical(s: string)
    ensures Canonical(s) ==> Canonical(Half(s))
    ensures Printable(Half(s))
  {
    HalfShrinks(s);
    if Canonical(s) {
      DisplayCanonicalizes(s, Bytes(s) / 2);
    }
  }

  lemma ShrinkKeepsText(m: Metadata)
    ensures AllPrintable(m) ==> AllPrintable(Shrink(m))
    ensures AllCanonical(m) ==> AllCanonical(Shrink(m))
  {
    HalfKeepsCanonical(m.agent);
    HalfKeepsCanonical(m.title);
    HalfKeepsCanonical(m.displayAgent);
    forall key | key in m.stateLabels
      ensures Printable(Half(m.stateLabels[key]))
      ensures Canonical(m.stateLabels[key]) ==> Canonical(Half(m.stateLabels[key]))
    {
      HalfKeepsCanonical(m.stateLabels[key]);
    }
  }

  /** The budget and the limits hold for every input; the workspace id is kept whole, or
      dropped exactly when the clipped document is over budget and the id alone takes over 600 bytes. */
  lemma NormalizedIsBounded(m: Metadata)
    ensures JsonLen(Normalized(m)) <= 1200 && Bounded(Normalized(m)) && AllPrintable(Normalized(m))
    ensures Normalized(m).workspaceId ==
      if JsonLen(Clip(m)) > 1200 && QuotedLen(Display(m.workspaceId, 256)) > 600 then ""
      else Display(m.workspaceId, 256)
  {
    ClipIsBounded(m);
    FitKeepsText(Clip(m));
  }

  lemma ClipCanonicalizes(m: Metadata)
    requires AllPrintable(m)
    ensures AllCanonical(Clip(m))
  {
    DisplayCanonicalizes(m.workspaceId, 256);
    DisplayCanonicalizes(m.agentStatus, 32);
    DisplayCanonicalizes(m.agent, 64);
    DisplayCanonicalizes(m.title, 256);
    DisplayCanonicalizes(m.displayAgent, 64);
    forall key | key in STATUSES
      ensures Canonical(Label(m.stateLabels, key))
    {
      DisplayCanonicalizes(if key in m.stateLabels then m.stateLabels[key] else "", 96);
    }
  }

  /** A second pass reaches the normal form, even after the session name was set in between. */
  lemma SecondPassIsNormal(m: Metadata, name: string)
    ensures NormalForm(Normalized(Normalized(m).(sessionName := name)))
  {
    var once := Normalized(m).(sessionName := name);
    NormalizedIsBounded(m);
    NormalizedIsBounded(once);
    ClipIsBounded(once);
    ClipCanonicalizes(once);
    FitKeepsText(Clip(once));
  }

  lemma CanonicalLabelsAreKept(labels: map<string, string>)
    requires forall key :: key in labels ==>
      key in STATUSES && labels[key] != "" && Canonical(labels[key]) && Bytes(labels[key]) <= 96
    ensures KnownLabels(labels, STATUSES) == labels
  {
    DisplayFixed("", 96);
    forall key | key in labels
      ensures Label(labels, key) == labels[key]
    {
      DisplayFixed(labels[key], 96);
    }
  }

  lemma NormalFormIsClipped(m: Metadata)
    requires NormalForm(m)
    ensures Clip(m) == m
  {
    DisplayFixed(m.workspaceId, 256);
    DisplayFixed(m.agentStatus, 32);
    DisplayFixed(m.agent, 64);
    DisplayFixed(m.title, 256);
    DisplayFixed(m.displayAgent, 64);
    CanonicalLabelsAreKept(m.stateLabels);
  }

  /** The fixed points of normalisation are exactly the normal forms. */
  lemma NormalizedFixed(m: Metadata)
    ensures Normalized(m) == m <==> NormalForm(m)
  {
    if NormalForm(m) {
      NormalFormIsClipped(m);
    }
    if Normalized(m) == m {
      SecondPassIsNormal(m, m.sessionName);
    }
  }

  lemma {:induction false} LowerCaseIsCanonical(s: string)
    requires forall i :: 0 <= i < |s| ==> 'a' <= s[i] <= 'z'
    ensures Canonical(s) && Bytes(s) == |s|
  {
    if s != "" {
      LowerCaseIsCanonical(s[1..]);
    }
  }

  lemma StatusTextIsFixed(status: Status)
    ensures Display(StatusText(status), 32) == StatusText(status)
  {
    LowerCaseIsCanonical(StatusText(status));
    DisplayFixed(StatusText(status), 32);
  }

  /** The status of a snapshot survives both passes. */
  lemma StatusSurvives(m: Metadata, status: Status, name: string)
    requires m.agentStatus == StatusText(status)
    ensures Normalized(Normalized(m).(sessionName := name)).agentStatus == StatusText(status)
  {
    StatusTextIsFixed(status);
    ClipIsBounded(m);
    ClipIsBounded(Normalized(m).(sessionName := name));
  }

  // --- What is kept ---

  /** Within the budget nothing is shortened further than its own limit. */
  lemma WithinBudget(m: Metadata)
    requires JsonLen(Clip(m)) <= 1200
    ensures var r := Normalized(m);
      && r.workspaceId == Display(m.workspaceId, 256) && r.agentStatus == Display(m.agentStatus, 32)
      && r.agent == Display(m.agent, 64) && r.title == Display(m.title, 256) && r.displayAgent == Display(m.displayAgent, 64)
      && (forall key :: key in r.stateLabels ==> key in m.stateLabels && r.stateLabels[key] == Display(m.stateLabels[key], 96))
      && forall key :: key in m.stateLabels && key in STATUSES && Display(m.stateLabels[key], 96) != "" ==> key in r.stateLabels
  {
    hide JsonLen, Display;
    ClipIsBounded(m);
    DisplayOfNothing();
  }

  lemma DisplayOfNothing()
    ensures Display("", 96) == ""
  {
    DisplayFixed("", 96);
  }

  /** The session name is kept exactly if it is up to 64 of its plain characters and no dot name. */
  lemma SessionNameIsKept(m: Metadata)
    ensures Normalized(m).sessionName ==
      if 0 < Bytes(m.sessionName) <= 64 && m.sessionName != "." && m.sessionName != ".."
         && (forall i :: 0 <= i < |m.sessionName| ==>
               var c := m.sessionName[i];
               'a' <= c <= 'z' || 'A' <= c <= 'Z' || '0' <= c <= '9' || c == '-' || c == '_' || c == '.')
      then m.sessionName else ""
  {
    hide Display, JsonLen;
    ClipIsBounded(m);
    NoBytesIsEmpty(m.sessionName);
  }

  /** When one round is enough, every shortened field keeps as many whole characters as fit in half its
      bytes; a label goes only when nothing of it is left. */
  lemma OneRoundKeepsHalf(m: Metadata)
    requires AllPrintable(m) && JsonLen(Clip(m)) > 1200 >= JsonLen(Shrink(Clip(m)))
    ensures var c := Clip(m); var r := Normalized(m);
      && r.agentStatus == c.agentStatus && r.sessionName == c.sessionName
      && IsCut(r.agent, c.agent, Bytes(c.agent) / 2) && IsCut(r.title, c.title, Bytes(c.title) / 2)
      && IsCut(r.displayAgent, c.displayAgent, Bytes(c.displayAgent) / 2)
      && r.stateLabels.Keys <= c.stateLabels.Keys
      && forall key :: key in c.stateLabels ==>
           IsCut(if key in r.stateLabels then r.stateLabels[key] else "", c.stateLabels[key], Bytes(c.stateLabels[key]) / 2)
  {
    hide Display, JsonLen, IsCut, Bytes;
    var c := Clip(m);
    ClipIsBounded(m);
    ClipCanonicalizes(m);
    FitOnce(c);
    DisplayIsCut(c.agent, Bytes(c.agent) / 2);
    DisplayIsCut(c.title, Bytes(c.title) / 2);
    DisplayIsCut(c.displayAgent, Bytes(c.displayAgent) / 2);
    hide Clip;
    forall key | key in c.stateLabels
      ensures IsCut(Half(c.stateLabels[key]), c.stateLabels[key], Bytes(c.stateLabels[key]) / 2)
    {
      DisplayIsCut(c.stateLabels[key], Bytes(c.stateLabels[key]) / 2);
    }
  }

  lemma FitOnce(m: Metadata)
    requires Bounded(m) && JsonLen(m) > MAX_JSON
    ensures Bounded(Shrink(m)) && (JsonLen(Shrink(m)) <= MAX_JSON ==> Fit(m) == Shrink(m))
  {
    hide JsonLen;
    ShrinkProgress(m);
  }
}
