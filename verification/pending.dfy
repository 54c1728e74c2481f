/** The pending_events table: filing of an event, insertion, and the four DELETE passes.

    The table is a map from its primary key. A row carries the SQL columns, its
    rowid, and two history columns no statement reads: `serial`, the number of the
    insertion, and `origin`, the observation a pane event was made from. `fates`
    says of every insertion, by serial, what became of it. */
module PendingEvents {
  import opened Options
  import opened HostEvents

  datatype Source = Codex | Herdr
  datatype Body = Parsed(event: HostEvent) | Unparsed
  datatype Origin = External | FromPane(key: string, incarnation: string, terminal: string, sequence: nat)
  datatype Row = Row(
    body: Body, attempts: nat, nextAttempt: int, created: int, expires: int,
    source: Source, session: string, pane: string, backend: string,
    rowid: nat, serial: nat, origin: Origin)
  type Table = map<string, Row>

  datatype Fate = Pending | Accepted | Rejected | Expired | Evicted | Discarded
  datatype Events = Events(rows: Table, fates: seq<Fate>)

  const CODEX_LIFETIME := 7 * 24 * 3600
  const HERDR_LIFETIME := 30 * 60
  const SESSION_CAP := 50
  const HERDR_CAP := 200
  const TOTAL_CAP := 500

  // --- Filing ---

  predicate FiledAsHerdr(body: Body) {
    body.Parsed? && EventSource(body.event) == HerdrSource && Valid(body.event)
  }

  /** The row enqueueEvent inserts; rowid and serial are set on insertion. */
  function NewRow(body: Body, now: int, backend: string, origin: Origin): Row {
    if FiledAsHerdr(body) then
      Row(body, 0, now, now, body.event.occurredAt + HERDR_LIFETIME, Herdr,
          body.event.target.value.sessionId, body.event.target.value.paneId, backend, 0, 0, origin)
    else
      Row(body, 0, now, now, now + CODEX_LIFETIME, Codex, "", "", backend, 0, 0, origin)
  }

  /** A valid Herdr event is filed under its session and pane for half an hour from when it occurred,
      anything else as Codex for a week from now; either is due at once and counts no attempt. */
  lemma FilingFacts(body: Body, now: int, backend: string, origin: Origin)
    ensures var row := NewRow(body, now, backend, origin);
      && row.body == body && row.backend == backend && row.origin == origin
      && row.attempts == 0 && row.nextAttempt == row.created == now
      && if body.Parsed? && body.event.source == HerdrSource && Valid(body.event) then
           && row.source == Herdr && row.expires == body.event.occurredAt + 1800
           && body.event.target == Some(Target(row.session, row.pane, body.event.target.value.codexThreadId,
                                               body.event.target.value.testInstallationId))
         else row.source == Codex && row.expires == now + 604800 && row.session == "" && row.pane == ""
  {
  }

  // --- Statements ---

  ghost function MaxRowid(t: Table, ids: set<string>): nat
    requires ids <= t.Keys
  {
    if ids == {} then 0
    else
      var id :| id in ids;
      var rest := MaxRowid(t, ids - {id});
      if t[id].rowid < rest then rest else t[id].rowid
  }

  lemma {:induction false} MaxRowidBounds(t: Table, ids: set<string>)
    requires ids <= t.Keys
    ensures forall id :: id in ids ==> t[id].rowid <= MaxRowid(t, ids)
    ensures ids != {} ==> exists id :: id in ids && t[id].rowid == MaxRowid(t, ids)
  {
    if ids != {} {
      var id :| id in ids && MaxRowid(t, ids) ==
        var rest := MaxRowid(t, ids - {id}); if t[id].rowid < rest then rest else t[id].rowid;
      MaxRowidBounds(t, ids - {id});
    }
  }

  ghost function NextRowid(t: Table): nat { 1 + MaxRowid(t, t.Keys) }

  /** INSERT OR IGNORE */
  ghost function Insert(e: Events, id: string, row: Row): Events {
    if id in e.rows then e
    else Events(e.rows[id := row.(rowid := NextRowid(e.rows), serial := |e.fates|)], e.fates + [Pending])
  }

  function Serials(t: Table, ids: set<string>): set<nat>
    requires ids <= t.Keys
  {
    set id | id in ids :: t[id].serial
  }

  function Settle(fates: seq<Fate>, gone: set<nat>, why: Fate): seq<Fate> {
    seq(|fates|, i requires 0 <= i < |fates| => if i in gone then why else fates[i])
  }

  /** DELETE of the rows named in ids, for one reason. */
  function Delete(e: Events, ids: set<string>, why: Fate): Events
    requires ids <= e.rows.Keys
  {
    Events(e.rows - ids, Settle(e.fates, Serials(e.rows, ids), why))
  }

  /** WHERE expires_at <= now */
  function Stale(t: Table, now: int): set<string> { set id | id in t && t[id].expires <= now }

  function Purge(e: Events, now: int): Events { Delete(e, Stale(e.rows, now), Expired) }

  datatype Scope = InSession(session: string) | AllHerdr | Everything

  predicate InScope(r: Row, scope: Scope) {
    match scope
    case InSession(s) => r.source == Herdr && r.session == s
    case AllHerdr => r.source == Herdr
    case Everything => true
  }

  predicate Newer(a: Row, b: Row) { a.created > b.created || (a.created == b.created && a.rowid > b.rowid) }

  /** ORDER BY CASE source WHEN 'codex' THEN 0 ELSE 1 END, created_at DESC, rowid DESC */
  predicate Before(a: Row, b: Row) {
    (a.source == Codex && b.source == Herdr) || (a.source == b.source && Newer(a, b))
  }

  function Members(t: Table, scope: Scope): set<string> { set id | id in t && InScope(t[id], scope) }

  /** Rows of the scope listed before row id. */
  function Ahead(t: Table, scope: Scope, id: string): set<string>
    requires id in t
  {
    set j | j in t && InScope(t[j], scope) && Before(t[j], t[id])
  }

  /** SELECT ... ORDER BY ... LIMIT -1 OFFSET cap */
  function Overflow(t: Table, scope: Scope, cap: nat): set<string> {
    set id | id in t && InScope(t[id], scope) && |Ahead(t, scope, id)| >= cap
  }

  function Prune(e: Events, scope: Scope, cap: nat): Events { Delete(e, Overflow(e.rows, scope, cap), Evicted) }

  /** The four passes after an insertion; session is that of the inserted event. */
  function Passes(e: Events, session: string, now: int): Events {
    Prune(Prune(Prune(Purge(e, now), InSession(session), SESSION_CAP), AllHerdr, HERDR_CAP), Everything, TOTAL_CAP)
  }

  ghost function EnqueueRow(e: Events, id: string, row: Row, now: int): Events {
    Passes(Insert(e, id, row), row.session, now)
  }

  // --- Caps ---

  ghost predicate UniqueRowids(t: Table) {
    forall a, b :: a in t && b in t && a != b ==> t[a].rowid != t[b].rowid
  }

  ghost predicate Caps(t: Table) {
    && |Members(t, Everything)| <= TOTAL_CAP
    && |Members(t, AllHerdr)| <= HERDR_CAP
    && forall s: string :: |Members(t, InSession(s))| <= SESSION_CAP
  }

  /** t is part of u: rows may be missing, none is changed. */
  ghost predicate PartOf(t: Table, u: Table) { forall id :: id in t ==> id in u && t[id] == u[id] }

  lemma SubsetSize<T>(a: set<T>, b: set<T>)
    requires a <= b
    ensures |a| <= |b|
  {
    assert b == a + (b - a);
  }

  lemma AheadGrows(t: Table, scope: Scope, a: string, b: string)
    requires a in t && b in t && InScope(t[a], scope) && Before(t[a], t[b])
    ensures |Ahead(t, scope, a)| < |Ahead(t, scope, b)|
  {
    assert a in Ahead(t, scope, b) && a !in Ahead(t, scope, a);
    SubsetSize(Ahead(t, scope, a) + {a}, Ahead(t, scope, b));
  }

  function FirstRows(t: Table, scope: Scope, k: nat): set<string> {
    set id | id in t && InScope(t[id], scope) && |Ahead(t, scope, id)| < k
  }

  lemma RankIsUnique(t: Table, scope: Scope, a: string, b: string)
    requires UniqueRowids(t) && a in t && b in t && InScope(t[a], scope) && InScope(t[b], scope)
    requires |Ahead(t, scope, a)| == |Ahead(t, scope, b)|
    ensures a == b
  {
    if a != b {
      if Before(t[a], t[b]) {
        AheadGrows(t, scope, a, b);
      } else {
        AheadGrows(t, scope, b, a);
      }
    }
  }

  lemma OneMoreRow(t: Table, scope: Scope, k: nat)
    requires UniqueRowids(t)
    ensures |FirstRows(t, scope, k + 1)| <= |FirstRows(t, scope, k)| + 1
  {
    var last := FirstRows(t, scope, k + 1) - FirstRows(t, scope, k);
    assert FirstRows(t, scope, k + 1) == FirstRows(t, scope, k) + last;
    forall a, b | a in last && b in last
      ensures a == b
    {
      RankIsUnique(t, scope, a, b);
    }
    AtMostOne(last);
  }

  /** At most k rows of a scope have fewer than k rows before them. */
  lemma {:induction false} FewFirstRows(t: Table, scope: Scope, k: nat)
    requires UniqueRowids(t)
    ensures |FirstRows(t, scope, k)| <= k
  {
    if k > 0 {
      FewFirstRows(t, scope, k - 1);
      OneMoreRow(t, scope, k - 1);
    } else {
      assert FirstRows(t, scope, k) == {};
    }
  }

  lemma AtMostOne<T>(s: set<T>)
    requires forall a, b :: a in s && b in s ==> a == b
    ensures |s| <= 1
  {
    if s != {} {
      var a :| a in s;
      assert s == {a};
    }
  }

  lemma PruneCaps(e: Events, scope: Scope, cap: nat)
    requires UniqueRowids(e.rows)
    ensures |Members(Prune(e, scope, cap).rows, scope)| <= cap
    ensures PartOf(Prune(e, scope, cap).rows, e.rows) && UniqueRowids(Prune(e, scope, cap).rows)
  {
    FewFirstRows(e.rows, scope, cap);
    assert Members(Prune(e, scope, cap).rows, scope) == FirstRows(e.rows, scope, cap);
  }

  lemma PartHasFewer(t: Table, u: Table, scope: Scope)
    requires PartOf(t, u)
    ensures |Members(t, scope)| <= |Members(u, scope)|
  {
    SubsetSize(Members(t, scope), Members(u, scope));
  }

  lemma PartKeepsCaps(t: Table, u: Table)
    requires PartOf(t, u) && UniqueRowids(u) && Caps(u)
    ensures UniqueRowids(t) && Caps(t)
  {
    PartHasFewer(t, u, Everything);
    PartHasFewer(t, u, AllHerdr);
    forall s: string
      ensures |Members(t, InSession(s))| <= SESSION_CAP
    {
      PartHasFewer(t, u, InSession(s));
    }
  }

  lemma InsertKeepsRowids(e: Events, id: string, row: Row)
    requires UniqueRowids(e.rows)
    ensures UniqueRowids(Insert(e, id, row).rows)
    ensures id !in e.rows ==> forall a :: a in e.rows ==> e.rows[a].rowid < Insert(e, id, row).rows[id].rowid
  {
    MaxRowidBounds(e.rows, e.rows.Keys);
  }

  lemma PassesAreBounded(e: Events, session: string, now: int)
    requires UniqueRowids(e.rows)
    ensures var f := Passes(e, session, now);
      && UniqueRowids(f.rows) && PartOf(f.rows, e.rows)
      && |Members(f.rows, Everything)| <= TOTAL_CAP && |Members(f.rows, AllHerdr)| <= HERDR_CAP
      && |Members(f.rows, InSession(session))| <= SESSION_CAP
  {
    var e1 := Purge(e, now);
    var e2 := Prune(e1, InSession(session), SESSION_CAP);
    var e3 := Prune(e2, AllHerdr, HERDR_CAP);
    var e4 := Prune(e3, Everything, TOTAL_CAP);
    PruneCaps(e1, InSession(session), SESSION_CAP);
    PruneCaps(e2, AllHerdr, HERDR_CAP);
    PruneCaps(e3, Everything, TOTAL_CAP);
    PartHasFewer(e4.rows, e3.rows, AllHerdr);
    PartHasFewer(e4.rows, e2.rows, InSession(session));
  }

  /** The row is the new one, as inserted. */
  predicate InsertedAs(row: Row, inserted: Row) { row == inserted.(rowid := row.rowid, serial := row.serial) }

  lemma PassesArePart(e: Events, session: string, now: int)
    ensures PartOf(Passes(e, session, now).rows, e.rows)
  {
  }

  /** An enqueue adds one row at most, and changes none. */
  lemma EnqueueAddsOnly(e: Events, id: string, row: Row, now: int)
    ensures var u := EnqueueRow(e, id, row, now).rows;
      forall j :: j in u ==>
        || (j in e.rows && u[j] == e.rows[j])
        || (j == id && id !in e.rows && InsertedAs(u[id], row))
  {
    PassesArePart(Insert(e, id, row), row.session, now);
    hide Passes, NextRowid;
  }

  lemma OtherSessionKeepsCap(e: Events, id: string, row: Row, f: Table, s: string)
    requires Caps(e.rows) && PartOf(f, Insert(e, id, row).rows) && s != row.session
    ensures |Members(f, InSession(s))| <= SESSION_CAP
  {
    PartHasFewer(f, Insert(e, id, row).rows, InSession(s));
    assert Members(Insert(e, id, row).rows, InSession(s)) == Members(e.rows, InSession(s));
  }

  /** From a table within the caps, any insertion leads to a table within the caps. */
  lemma EnqueueKeepsCaps(e: Events, id: string, row: Row, now: int)
    requires UniqueRowids(e.rows) && Caps(e.rows)
    ensures UniqueRowids(EnqueueRow(e, id, row, now).rows) && Caps(EnqueueRow(e, id, row, now).rows)
    ensures PartOf(EnqueueRow(e, id, row, now).rows, Insert(e, id, row).rows)
  {
    InsertKeepsRowids(e, id, row);
    var f := EnqueueRow(e, id, row, now).rows;
    PassesAreBounded(Insert(e, id, row), row.session, now);
    forall s: string | s != row.session
      ensures |Members(f, InSession(s))| <= SESSION_CAP
    {
      OtherSessionKeepsCap(e, id, row, f, s);
    }
  }

  // --- Closed form ---

  function NewerInSession(t: Table, now: int, id: string): set<string>
    requires id in t
  {
    set j | j in t && t[j].expires > now && t[j].source == Herdr && t[j].session == t[id].session && Newer(t[j], t[id])
  }

  /** Unexpired and, for a Herdr row, among the newest of its session. */
  predicate InSessionCut(t: Table, now: int, id: string)
    requires id in t
  {
    t[id].expires > now && (t[id].source == Codex || |NewerInSession(t, now, id)| < SESSION_CAP)
  }

  /** Rows of the same source that pass the session cut and are newer. */
  function NewerKept(t: Table, now: int, id: string): set<string>
    requires id in t
  {
    set j | j in t && InSessionCut(t, now, j) && t[j].source == t[id].source && Newer(t[j], t[id])
  }

  predicate InHerdrCut(t: Table, now: int, id: string)
    requires id in t
  {
    InSessionCut(t, now, id) && (t[id].source == Codex || |NewerKept(t, now, id)| < HERDR_CAP)
  }

  function LiveCodex(t: Table, now: int): set<string> { set j | j in t && t[j].expires > now && t[j].source == Codex }

  /** One predicate for the four passes: unexpired, and either among the newest 500 Codex rows, or
      among the newest 50 of its session, the newest 200 of those, and still within 500 after all Codex rows. */
  predicate Survives(t: Table, now: int, id: string)
    requires id in t
  {
    && InHerdrCut(t, now, id)
    && |NewerKept(t, now, id)| + (if t[id].source == Codex then 0 else |LiveCodex(t, now)|) < TOTAL_CAP
  }

  /** All sessions but one are within the session cap. */
  ghost predicate OthersCapped(t: Table, session: string) {
    forall s: string :: s != session ==> |Members(t, InSession(s))| <= SESSION_CAP
  }

  lemma SessionPass(e: Events, session: string, now: int, id: string)
    requires OthersCapped(e.rows, session) && id in e.rows
    ensures id in Prune(Purge(e, now), InSession(session), SESSION_CAP).rows <==> InSessionCut(e.rows, now, id)
  {
    var t, k := e.rows, Purge(e, now).rows;
    if id in k && t[id].source == Herdr {
      var ahead := Ahead(k, InSession(t[id].session), id);
      assert ahead == NewerInSession(t, now, id);
      if t[id].session != session {
        assert ahead <= Members(t, InSession(t[id].session)) - {id};
        SubsetSize(ahead, Members(t, InSession(t[id].session)) - {id});
      }
    }
  }

  /** After the session cut, rank among the Herdr rows is the number of newer kept ones. */
  lemma HerdrPass(t: Table, now: int, h: Table, id: string)
    requires PartOf(h, t) && forall j :: j in t ==> (j in h <==> InSessionCut(t, now, j))
    requires id in t
    ensures id in h && id !in Overflow(h, AllHerdr, HERDR_CAP) <==> InHerdrCut(t, now, id)
  {
    if id in h && t[id].source == Herdr {
      assert Ahead(h, AllHerdr, id) == NewerKept(t, now, id);
    }
  }

  lemma NewerKeptPassToo(t: Table, now: int, id: string)
    requires id in t && InHerdrCut(t, now, id)
    ensures forall j :: j in NewerKept(t, now, id) ==> InHerdrCut(t, now, j)
  {
    forall j | j in NewerKept(t, now, id) && t[id].source == Herdr
      ensures |NewerKept(t, now, j)| < HERDR_CAP
    {
      SubsetSize(NewerKept(t, now, j), NewerKept(t, now, id));
    }
  }

  lemma LastPass(t: Table, now: int, g: Table, id: string)
    requires PartOf(g, t) && forall j :: j in t ==> (j in g <==> InHerdrCut(t, now, j))
    requires id in t
    ensures id in g && id !in Overflow(g, Everything, TOTAL_CAP) <==> Survives(t, now, id)
  {
    if id in g {
      if t[id].source == Codex {
        assert Ahead(g, Everything, id) == NewerKept(t, now, id);
      } else {
        NewerKeptPassToo(t, now, id);
        assert Ahead(g, Everything, id) == LiveCodex(t, now) + NewerKept(t, now, id);
        DisjointUnionSize(LiveCodex(t, now), NewerKept(t, now, id));
      }
    }
  }

  lemma DisjointUnionSize<T>(a: set<T>, b: set<T>)
    requires a !! b
    ensures |a + b| == |a| + |b|
  {
  }

  /** The four sequential passes are the closed form. */
  lemma PassesAreClosedForm(e: Events, session: string, now: int, id: string)
    requires OthersCapped(e.rows, session) && id in e.rows
    ensures id in Passes(e, session, now).rows <==> Survives(e.rows, now, id)
    ensures id in Passes(e, session, now).rows ==> Passes(e, session, now).rows[id] == e.rows[id]
  {
    var h := Prune(Purge(e, now), InSession(session), SESSION_CAP);
    var g := Prune(h, AllHerdr, HERDR_CAP);
    forall j | j in e.rows
      ensures j in h.rows <==> InSessionCut(e.rows, now, j)
    {
      SessionPass(e, session, now, j);
    }
    forall j | j in e.rows
      ensures j in g.rows <==> InHerdrCut(e.rows, now, j)
    {
      HerdrPass(e.rows, now, h.rows, j);
    }
    LastPass(e.rows, now, g.rows, id);
  }

  // --- Which rows go, by creation time and rowid ---

  lemma LastOne(t: Table, ids: set<string>) returns (m: string)
    requires UniqueRowids(t) && ids <= t.Keys && ids != {}
    ensures m in ids && forall i :: i in ids && i != m ==> Before(t[i], t[m])
    decreases |ids|
  {
    m :| m in ids;
    if ids != {m} {
      var n := LastOne(t, ids - {m});
      if Before(t[m], t[n]) {
        m := n;
      }
    }
  }

  /** At least k of the rows ahead of one with k or more are among the first k. */
  lemma {:induction false} EnoughFirstRows(t: Table, scope: Scope, j: string, k: nat)
    requires UniqueRowids(t) && j in t && InScope(t[j], scope) && |Ahead(t, scope, j)| >= k
    ensures |Ahead(t, scope, j) * FirstRows(t, scope, k)| >= k
    decreases |Ahead(t, scope, j)|
  {
    var ahead := Ahead(t, scope, j);
    if |ahead| == k {
      forall i | i in ahead
        ensures i in FirstRows(t, scope, k)
      {
        AheadGrows(t, scope, i, j);
      }
      assert ahead * FirstRows(t, scope, k) == ahead;
    } else {
      var m := LastOne(t, ahead);
      assert Ahead(t, scope, m) == ahead - {m};
      EnoughFirstRows(t, scope, m, k);
      SubsetSize(Ahead(t, scope, m) * FirstRows(t, scope, k), ahead * FirstRows(t, scope, k));
    }
  }

  /** The Herdr rows, of one session or of all, created after a row or at the same time with a higher rowid. */
  function LaterHerdr(t: Table, session: Option<string>, row: Row): set<string> {
    set i | i in t && t[i].source == Herdr && (session.Some? ==> t[i].session == session.value)
      && (t[i].created > row.created || (t[i].created == row.created && t[i].rowid > row.rowid))
  }

  function LiveRows(t: Table, ids: set<string>, now: int): set<string> { set i | i in ids && i in t && t[i].expires > now }

  /** A row that a pass over Herdr rows deletes leaves as many later ones as the pass keeps. */
  lemma PrunedHerdrLeavesLater(e: Events, scope: Scope, session: Option<string>, cap: nat, j: string)
    requires UniqueRowids(e.rows) && scope == (if session.Some? then InSession(session.value) else AllHerdr)
    requires j in e.rows && j !in Prune(e, scope, cap).rows
    ensures e.rows[j].source == Herdr && (session.Some? ==> e.rows[j].session == session.value)
    ensures |LaterHerdr(Prune(e, scope, cap).rows, session, e.rows[j])| >= cap
  {
    EnoughFirstRows(e.rows, scope, j, cap);
    var u := Prune(e, scope, cap).rows;
    SubsetSize(Ahead(e.rows, scope, j) * FirstRows(e.rows, scope, cap), LaterHerdr(u, session, e.rows[j]));
  }

  /** The session pass keeps the newest 50 rows of the session, the Herdr pass the newest 200. */
  lemma HerdrPassesKeepNewest(e: Events, session: string, j: string)
    requires UniqueRowids(e.rows) && j in e.rows
    ensures var u := Prune(e, InSession(session), SESSION_CAP).rows;
      j !in u ==>
        && e.rows[j].source == Herdr && e.rows[j].session == session
        && |LaterHerdr(u, Some(session), e.rows[j])| >= 50
    ensures var u := Prune(e, AllHerdr, HERDR_CAP).rows;
      j !in u ==> e.rows[j].source == Herdr && |LaterHerdr(u, None, e.rows[j])| >= 200
  {
    hide Prune, LaterHerdr;
    if j !in Prune(e, InSession(session), SESSION_CAP).rows {
      PrunedHerdrLeavesLater(e, InSession(session), Some(session), SESSION_CAP, j);
    }
    if j !in Prune(e, AllHerdr, HERDR_CAP).rows {
      PrunedHerdrLeavesLater(e, AllHerdr, None, HERDR_CAP, j);
    }
  }

  /** An unexpired Herdr row goes in an enqueue only if 50 later unexpired ones of its session were there,
      or 200 of all sessions, or 500 together with the unexpired Codex rows. */
  lemma HerdrDepartures(e: Events, id: string, row: Row, now: int, j: string)
    requires UniqueRowids(e.rows) && Caps(e.rows)
    requires var t := Insert(e, id, row).rows; j in t && t[j].source == Herdr && t[j].expires > now
    requires j !in EnqueueRow(e, id, row, now).rows
    ensures var t := Insert(e, id, row).rows;
      || |LiveRows(t, LaterHerdr(t, Some(t[j].session), t[j]), now)| >= 50
      || |LiveRows(t, LaterHerdr(t, None, t[j]), now)| >= 200
      || |set i | i in t && t[i].source == Codex && t[i].expires > now| + |LiveRows(t, LaterHerdr(t, None, t[j]), now)| >= 500
  {
    hide Insert, UniqueRowids, Caps, EnqueueRow, Survives, LaterHerdr, LiveRows;
    InsertLeavesOthersCapped(e, id, row);
    EnqueueIsPasses(e, id, row, now);
    PassesAreClosedForm(Insert(e, id, row), row.session, now, j);
    CutsAreFull(Insert(e, id, row).rows, now, j);
  }

  lemma EnqueueIsPasses(e: Events, id: string, row: Row, now: int)
    ensures EnqueueRow(e, id, row, now) == Passes(Insert(e, id, row), row.session, now)
  {
  }

  lemma CutsAreFull(t: Table, now: int, j: string)
    requires j in t && t[j].source == Herdr && t[j].expires > now && !Survives(t, now, j)
    ensures
      || |LiveRows(t, LaterHerdr(t, Some(t[j].session), t[j]), now)| >= 50
      || |LiveRows(t, LaterHerdr(t, None, t[j]), now)| >= 200
      || |set i | i in t && t[i].source == Codex && t[i].expires > now| + |LiveRows(t, LaterHerdr(t, None, t[j]), now)| >= 500
  {
    assert NewerInSession(t, now, j) == LiveRows(t, LaterHerdr(t, Some(t[j].session), t[j]), now);
    SubsetSize(NewerKept(t, now, j), LiveRows(t, LaterHerdr(t, None, t[j]), now));
    assert LiveCodex(t, now) == set i | i in t && t[i].source == Codex && t[i].expires > now;
  }

  lemma InsertLeavesOthersCapped(e: Events, id: string, row: Row)
    requires Caps(e.rows)
    ensures OthersCapped(Insert(e, id, row).rows, row.session)
  {
    forall s: string | s != row.session
      ensures |Members(Insert(e, id, row).rows, InSession(s))| <= SESSION_CAP
    {
      assert Members(Insert(e, id, row).rows, InSession(s)) == Members(e.rows, InSession(s));
    }
  }

  /** A new Herdr event, not created before any other, is queued exactly if fewer than 500 unexpired Codex
      rows are there, however full its session. */
  lemma EnqueuedHerdrIsPending(e: Events, id: string, row: Row, now: int)
    requires UniqueRowids(e.rows) && Caps(e.rows) && id !in e.rows && row.source == Herdr && row.expires > now
    requires forall j :: j in e.rows ==> e.rows[j].created <= row.created
    ensures id in EnqueueRow(e, id, row, now).rows <==>
      |set j | j in e.rows && e.rows[j].source == Codex && e.rows[j].expires > now| < 500
  {
    InsertKeepsRowids(e, id, row);
    InsertIs(e, id, row);
    hide Insert, UniqueRowids, Caps, EnqueueRow, Survives, Passes;
    InsertLeavesOthersCapped(e, id, row);
    EnqueueIsPasses(e, id, row, now);
    PassesAreClosedForm(Insert(e, id, row), row.session, now, id);
    NewestSurvives(e.rows, Insert(e, id, row).rows, now, id);
  }

  lemma InsertIs(e: Events, id: string, row: Row)
    requires id !in e.rows
    ensures var t := Insert(e, id, row).rows;
      t == e.rows[id := t[id]] && InsertedAs(t[id], row)
  {
    hide NextRowid;
  }

  lemma NewestSurvives(t: Table, u: Table, now: int, id: string)
    requires id !in t && id in u && u == t[id := u[id]] && u[id].source == Herdr && u[id].expires > now
    requires forall j :: j in t ==> t[j].created <= u[id].created && t[j].rowid < u[id].rowid
    ensures Survives(u, now, id) <==> |set j | j in t && t[j].source == Codex && t[j].expires > now| < 500
  {
    assert NewerInSession(u, now, id) == {} && NewerKept(u, now, id) == {};
    assert LiveCodex(u, now) == set j | j in t && t[j].source == Codex && t[j].expires > now;
  }

  // --- Conservation ---

  /** Every insertion has exactly one fate, and the pending ones are exactly the rows. */
  ghost predicate Conserved(e: Events) {
    && (forall id :: id in e.rows ==> e.rows[id].serial < |e.fates| && e.fates[e.rows[id].serial] == Pending)
    && (forall a, b :: a in e.rows && b in e.rows && a != b ==> e.rows[a].serial != e.rows[b].serial)
    && (forall n :: 0 <= n < |e.fates| && e.fates[n] == Pending ==> exists id :: id in e.rows && e.rows[id].serial == n)
  }

  /** Fates only move on from Pending. */
  ghost predicate FatesFinal(before: seq<Fate>, after: seq<Fate>) {
    |before| <= |after| && forall n :: 0 <= n < |before| && before[n] != Pending ==> after[n] == before[n]
  }

  lemma InsertConserves(e: Events, id: string, row: Row)
    requires Conserved(e)
    ensures Conserved(Insert(e, id, row)) && FatesFinal(e.fates, Insert(e, id, row).fates)
  {
    var f := Insert(e, id, row);
    if id !in e.rows {
      forall n | 0 <= n < |f.fates| && f.fates[n] == Pending
        ensures exists j :: j in f.rows && f.rows[j].serial == n
      {
        if n < |e.fates| {
          var j :| j in e.rows && e.rows[j].serial == n;
          assert j in f.rows && f.rows[j].serial == n;
        } else {
          assert f.rows[id].serial == n;
        }
      }
    }
  }

  lemma DeleteConserves(e: Events, ids: set<string>, why: Fate)
    requires Conserved(e) && ids <= e.rows.Keys && why != Pending
    ensures Conserved(Delete(e, ids, why)) && FatesFinal(e.fates, Delete(e, ids, why).fates)
  {
    var f := Delete(e, ids, why);
    forall n | 0 <= n < |f.fates| && f.fates[n] == Pending
      ensures exists j :: j in f.rows && f.rows[j].serial == n
    {
      var j :| j in e.rows && e.rows[j].serial == n;
      assert j !in ids;
      assert j in f.rows && f.rows[j].serial == n;
    }
  }

  lemma PassesConserve(e: Events, session: string, now: int)
    requires Conserved(e)
    ensures Conserved(Passes(e, session, now)) && FatesFinal(e.fates, Passes(e, session, now).fates)
  {
    var e1 := Purge(e, now);
    var e2 := Prune(e1, InSession(session), SESSION_CAP);
    var e3 := Prune(e2, AllHerdr, HERDR_CAP);
    DeleteConserves(e, Stale(e.rows, now), Expired);
    DeleteConserves(e1, Overflow(e1.rows, InSession(session), SESSION_CAP), Evicted);
    DeleteConserves(e2, Overflow(e2.rows, AllHerdr, HERDR_CAP), Evicted);
    DeleteConserves(e3, Overflow(e3.rows, Everything, TOTAL_CAP), Evicted);
  }

  lemma EnqueueConserves(e: Events, id: string, row: Row, now: int)
    requires Conserved(e)
    ensures Conserved(EnqueueRow(e, id, row, now)) && FatesFinal(e.fates, EnqueueRow(e, id, row, now).fates)
  {
    InsertConserves(e, id, row);
    PassesConserve(Insert(e, id, row), row.session, now);
  }

  /** What an enqueue says of a row it took: expired if it had, else evicted; and of no other. */
  lemma FateOfLost(e: Events, id: string, row: Row, now: int, j: string)
    requires Conserved(e)
    ensures var t := Insert(e, id, row); var u := EnqueueRow(e, id, row, now);
      j in t.rows && j !in u.rows ==>
        && t.rows[j].serial < |u.fates|
        && u.fates[t.rows[j].serial] == if t.rows[j].expires <= now then Expired else Evicted
  {
    var t := Insert(e, id, row);
    InsertConserves(e, id, row);
    var e1 := Purge(t, now);
    var e2 := Prune(e1, InSession(row.session), SESSION_CAP);
    var e3 := Prune(e2, AllHerdr, HERDR_CAP);
    DeleteConserves(t, Stale(t.rows, now), Expired);
    DeleteConserves(e1, Overflow(e1.rows, InSession(row.session), SESSION_CAP), Evicted);
    DeleteConserves(e2, Overflow(e2.rows, AllHerdr, HERDR_CAP), Evicted);
    DeleteConserves(e3, Overflow(e3.rows, Everything, TOTAL_CAP), Evicted);
    hide Conserved, Insert, Overflow;
    DeletedFate(t, Stale(t.rows, now), Expired, j);
    DeletedFate(e1, Overflow(e1.rows, InSession(row.session), SESSION_CAP), Evicted, j);
    DeletedFate(e2, Overflow(e2.rows, AllHerdr, HERDR_CAP), Evicted, j);
    DeletedFate(e3, Overflow(e3.rows, Everything, TOTAL_CAP), Evicted, j);
  }

  lemma DeletedFate(e: Events, ids: set<string>, why: Fate, j: string)
    requires Conserved(e) && ids <= e.rows.Keys
    ensures |Delete(e, ids, why).fates| == |e.fates|
    ensures j in e.rows ==>
      && e.rows[j].serial < |e.fates|
      && Delete(e, ids, why).fates[e.rows[j].serial] == if j in ids then why else e.fates[e.rows[j].serial]
    ensures j in e.rows && j !in ids ==> j in Delete(e, ids, why).rows && Delete(e, ids, why).rows[j] == e.rows[j]
  {
  }
}
