/** The JSON text of the metadata, as encoding/json writes it: what the length budget is about. */
module MetadataJson {
  import opened Text
  import opened HerdrMetadata

  function HexDigit(n: nat): char
    requires n < 16
  {
    "0123456789abcdef"[n]
  }

  function UnicodeEscape(n: nat): string
    requires n < 0x1_0000
  {
    ['\\', 'u', HexDigit(n / 4096), HexDigit(n / 256 % 16), HexDigit(n / 16 % 16), HexDigit(n % 16)]
  }

  /** One character inside a JSON string: section 7 of RFC 8259, and what Go escapes for HTML and JavaScript. */
  function Escape(c: char): string {
    if c == '\"' then ['\\', '\"']
    else if c == '\\' then ['\\', '\\']
    else if c as int == 0x08 then ['\\', 'b']
    else if c as int == 0x09 then ['\\', 't']
    else if c as int == 0x0A then ['\\', 'n']
    else if c as int == 0x0C then ['\\', 'f']
    else if c as int == 0x0D then ['\\', 'r']
    else if c as int < 0x20 || c == '<' || c == '>' || c == '&' || c as int == 0x2028 || c as int == 0x2029
    then UnicodeEscape(c as int)
    else [c]
  }

  function Escaped(s: string): string { if s == "" then "" else Escape(s[0]) + Escaped(s[1..]) }

  function Quoted(s: string): string { ['\"'] + Escaped(s) + ['\"'] }

  /** A member of an object. */
  function Member(name: string, value: string): string { ['\"'] + name + ['\"', ':'] + value }

  function Commas(items: seq<string>): string {
    if items == [] then "" else if |items| == 1 then items[0] else items[0] + [','] + Commas(items[1..])
  }

  function Object(items: seq<string>): string { ['{'] + Commas(items) + ['}'] }

  /** omitempty */
  function Optional(name: string, value: string): seq<string> { if value == "" then [] else [Member(name, Quoted(value))] }

  function LabelItem(labels: map<string, string>, key: string): seq<string> {
    if key in labels then [Member(key, Quoted(labels[key]))] else []
  }

  /** Map keys are sorted. */
  function LabelItems(labels: map<string, string>): seq<string> {
    LabelItem(labels, "blocked") + LabelItem(labels, "done") + LabelItem(labels, "idle")
    + LabelItem(labels, "unknown") + LabelItem(labels, "working")
  }

  function Items(m: Metadata): seq<string> {
    Optional("sessionName", m.sessionName) + Optional("workspaceId", m.workspaceId)
    + [Member("agentStatus", Quoted(m.agentStatus))]
    + Optional("agent", m.agent) + Optional("title", m.title) + Optional("displayAgent", m.displayAgent)
    + if m.stateLabels == map[] then [] else [Member("stateLabels", Object(LabelItems(m.stateLabels)))]
  }

  function JsonText(m: Metadata): string { Object(Items(m)) }

  // --- Its length ---

  lemma BytesJoin(a: string, b: string)
    ensures Bytes(a + b) == Bytes(a) + Bytes(b)
  {
    WeighConcat(a, b, RuneLen);
  }

  lemma EscapeLength(c: char)
    ensures Bytes(Escape(c)) == EscapedLen(c)
  {
    if |Escape(c)| > 1 {
      HexDigitsAreAscii();
      AsciiBytes(Escape(c));
    } else {
      assert Escape(c) == [c] && [c][1..] == "";
      assert Bytes([c]) == RuneLen(c) + Bytes([c][1..]);
    }
  }

  lemma HexDigitsAreAscii()
    ensures forall n: nat :: n < 16 ==> HexDigit(n) as int < 0x80
  {
  }

  lemma {:induction false} QuotedLength(s: string)
    ensures Bytes(Escaped(s)) == Weigh(s, EscapedLen)
    ensures Bytes(Quoted(s)) == QuotedLen(s)
  {
    hide Escape;
    if s != "" {
      QuotedLength(s[1..]);
      EscapeLength(s[0]);
      BytesJoin(Escape(s[0]), Escaped(s[1..]));
    }
    InQuotes(Escaped(s));
  }

  lemma InQuotes(s: string)
    ensures Bytes(['\"'] + s + ['\"']) == Bytes(s) + 2
  {
    BytesJoin(['\"'] + s, ['\"']);
    BytesJoin(['\"'], s);
    AsciiBytes(['\"']);
  }

  lemma MemberLength(name: string, value: string)
    requires forall i :: 0 <= i < |name| ==> 'A' <= name[i] <= 'z'
    ensures Bytes(Member(name, value)) == |name| + 3 + Bytes(value)
  {
    var front := ['\"'] + name + ['\"', ':'];
    AsciiBytes(front);
    BytesJoin(front, value);
  }

  /** Bytes of the items with one more for each. */
  function Total(items: seq<string>): nat { if items == [] then 0 else Bytes(items[0]) + 1 + Total(items[1..]) }

  lemma {:induction false} TotalJoins(a: seq<string>, b: seq<string>)
    ensures Total(a + b) == Total(a) + Total(b)
  {
    if a == [] {
      assert a + b == b;
    } else {
      TotalJoins(a[1..], b);
      assert (a + b)[1..] == a[1..] + b;
    }
  }

  lemma {:induction false} CommasLength(items: seq<string>)
    requires items != []
    ensures Bytes(Commas(items)) + 1 == Total(items)
  {
    if |items| == 1 {
      assert items[1..] == [];
    } else {
      CommasLength(items[1..]);
      BytesJoin(items[0] + [','], Commas(items[1..]));
      BytesJoin(items[0], [',']);
      AsciiBytes([',']);
    }
  }

  lemma ObjectLength(items: seq<string>)
    requires items != []
    ensures Bytes(Object(items)) == Total(items) + 1
  {
    CommasLength(items);
    BytesJoin(['{'] + Commas(items), ['}']);
    BytesJoin(['{'], Commas(items));
    AsciiBytes(['{']);
    AsciiBytes(['}']);
  }

  lemma OptionalLength(name: string, value: string)
    requires forall i :: 0 <= i < |name| ==> 'A' <= name[i] <= 'z'
    ensures Total(Optional(name, value)) == FieldLen(|name|, value)
  {
    hide Bytes, QuotedLen, Quoted, Member;
    MemberLength(name, Quoted(value));
    QuotedLength(value);
    OneItem(Member(name, Quoted(value)));
  }

  lemma OneItem(item: string)
    ensures Total([item]) == Bytes(item) + 1 && Total([]) == 0
  {
    assert [item][1..] == [];
  }

  function LabelLen(labels: map<string, string>, key: string): nat {
    if key in labels then |key| + 4 + QuotedLen(labels[key]) else 0
  }

  lemma LabelLength(labels: map<string, string>, key: string)
    requires forall i :: 0 <= i < |key| ==> 'A' <= key[i] <= 'z'
    ensures Total(LabelItem(labels, key)) == LabelLen(labels, key)
  {
    hide Bytes, QuotedLen, Quoted, Member;
    if key in labels {
      MemberLength(key, Quoted(labels[key]));
      QuotedLength(labels[key]);
      OneItem(Member(key, Quoted(labels[key])));
    } else {
      OneItem("");
    }
  }

  lemma FiveLabels(labels: map<string, string>)
    ensures LabelsLen(labels, STATUSES) ==
      LabelLen(labels, "working") + LabelLen(labels, "blocked") + LabelLen(labels, "idle")
      + LabelLen(labels, "done") + LabelLen(labels, "unknown")
  {
    hide QuotedLen, LabelLen, LabelsLen;
    LabelsLenStep(labels, STATUSES);
    LabelsLenStep(labels, ["blocked", "idle", "done", "unknown"]);
    LabelsLenStep(labels, ["idle", "done", "unknown"]);
    LabelsLenStep(labels, ["done", "unknown"]);
    LabelsLenStep(labels, ["unknown"]);
    assert STATUSES[1..] == ["blocked", "idle", "done", "unknown"];
    assert ["blocked", "idle", "done", "unknown"][1..] == ["idle", "done", "unknown"];
    assert ["idle", "done", "unknown"][1..] == ["done", "unknown"];
    assert ["done", "unknown"][1..] == ["unknown"];
    assert ["unknown"][1..] == [];
  }

  lemma LabelsLenStep(labels: map<string, string>, keys: seq<string>)
    requires keys != []
    ensures LabelsLen(labels, keys) == LabelLen(labels, keys[0]) + LabelsLen(labels, keys[1..])
    ensures LabelsLen(labels, []) == 0
  {
  }

  lemma LabelsLength(labels: map<string, string>)
    ensures Total(LabelItems(labels)) == LabelsLen(labels, STATUSES)
  {
    hide LabelItem, LabelLen, Total, LabelsLen;
    FiveLabels(labels);
    var a, b, c, d, e := LabelItem(labels, "blocked"), LabelItem(labels, "done"), LabelItem(labels, "idle"),
      LabelItem(labels, "unknown"), LabelItem(labels, "working");
    LabelLength(labels, "blocked");
    LabelLength(labels, "done");
    LabelLength(labels, "idle");
    LabelLength(labels, "unknown");
    LabelLength(labels, "working");
    TotalJoins(a + b + c + d, e);
    TotalJoins(a + b + c, d);
    TotalJoins(a + b, c);
    TotalJoins(a, b);
  }

  lemma SomeLabel(labels: map<string, string>)
    requires labels != map[] && forall key :: key in labels ==> key in STATUSES
    ensures LabelItems(labels) != []
  {
    hide Member, Quoted;
    var key :| key in labels;
    assert key in STATUSES;
    assert LabelItem(labels, key) != [];
  }

  lemma LabelsItemLength(labels: map<string, string>)
    requires forall key :: key in labels ==> key in STATUSES
    ensures Total(if labels == map[] then [] else [Member("stateLabels", Object(LabelItems(labels)))]) ==
      if labels == map[] then 0 else 16 + LabelsLen(labels, STATUSES)
  {
    hide Member, Object, LabelItems, LabelsLen, Bytes;
    OneItem(Member("stateLabels", Object(LabelItems(labels))));
    if labels != map[] {
      SomeLabel(labels);
      LabelsLength(labels);
      ObjectLength(LabelItems(labels));
      MemberLength("stateLabels", Object(LabelItems(labels)));
    }
  }

  /** The length the normaliser works with is that of the text, in bytes. */
  lemma JsonTextLength(m: Metadata)
    requires forall key :: key in m.stateLabels ==> key in STATUSES
    ensures Bytes(JsonText(m)) == JsonLen(m)
  {
    hide Optional, Member, Object, Quoted, Total, LabelItems, FieldLen, LabelsLen, QuotedLen, Bytes;
    var a, b := Optional("sessionName", m.sessionName), Optional("workspaceId", m.workspaceId);
    var c := [Member("agentStatus", Quoted(m.agentStatus))];
    var d, e, f := Optional("agent", m.agent), Optional("title", m.title), Optional("displayAgent", m.displayAgent);
    var g := if m.stateLabels == map[] then [] else [Member("stateLabels", Object(LabelItems(m.stateLabels)))];
    OptionalLength("sessionName", m.sessionName);
    OptionalLength("workspaceId", m.workspaceId);
    OptionalLength("agent", m.agent);
    OptionalLength("title", m.title);
    OptionalLength("displayAgent", m.displayAgent);
    LabelsItemLength(m.stateLabels);
    OneItem(Member("agentStatus", Quoted(m.agentStatus)));
    MemberLength("agentStatus", Quoted(m.agentStatus));
    QuotedLength(m.agentStatus);
    TotalJoins(a + b + c + d + e + f, g);
    TotalJoins(a + b + c + d + e, f);
    TotalJoins(a + b + c + d, e);
    TotalJoins(a + b + c, d);
    TotalJoins(a + b, c);
    TotalJoins(a, b);
    ObjectLength(Items(m));
  }

  /** So the text of normalised metadata has at most 1200 bytes. */
  lemma NormalizedTextFits(m: Metadata)
    ensures Bytes(JsonText(Normalized(m))) <= 1200
  {
    hide JsonText, Bytes, Normalized, JsonLen;
    NormalizedIsBounded(m);
    JsonTextLength(Normalized(m));
  }
}
